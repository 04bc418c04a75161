/** Which interface versions a file should declare (version_resolver.py):
    the beta and test product tables, detection of the versions a file
    already declares, and the two ways of resolving them to current product
    versions through the version cache. */
module VersionResolver {
  import opened Wrappers
  import opened PyStr
  import opened Types
  import opened Catalog
  import opened VersionClient

  // ---------------------------------------------------------------------------
  // Product tables

  /** `get_beta_products`: the beta product of retail and of classic; the
      classic era beta is never asked for. */
  function BetaProducts(product: FullProduct): (betas: seq<Product>)
    ensures forall b :: b in betas <==> b.IsBeta() && b.Flavor() == product && b != WowClassicEraBeta
    ensures |betas| <= 1
  {
    match product
    case Wow => [WowBeta]
    case WowClassic => [WowClassicBeta]
    case _ => []
  }

  /** `get_test_products`: every test product of the flavor. */
  function TestProducts(product: FullProduct): (tests: seq<Product>)
    ensures forall t :: t in tests <==> t.IsTest() && t.Flavor() == product
    ensures forall i, j :: 0 <= i < j < |tests| ==> tests[i] != tests[j]
  {
    match product
    case Wow => [Wowt, Wowxptr]
    case WowClassic => [WowClassicPtr]
    case WowClassicEra => [WowClassicEraPtr]
  }

  /** The products whose versions may join a flavor's version, in the order
      they are asked for: beta products when `beta` is set, then test
      products when `test` is set. */
  function Candidates(flavor: FullProduct, beta: bool, test: bool): (cs: seq<Product>)
    ensures forall c :: c in cs <==> (beta && c in BetaProducts(flavor)) || (test && c in TestProducts(flavor))
    ensures forall c | c in cs :: !c.IsFull() && c.Flavor() == flavor
  {
    (if beta then BetaProducts(flavor) else []) + (if test then TestProducts(flavor) else [])
  }

  // ---------------------------------------------------------------------------
  // detect_existing_versions

  /** A line the single-line pattern `^(## Interface:).*\,.*$` matches: the
      base directive with a comma somewhere after it. */
  predicate IsCommaBaseLine(line: string) {
    StartsWith(line, BASE) && ',' in line[|BASE|..]
  }

  /** The first such line. */
  function FirstCommaBaseLine(lines: seq<string>): (r: Option<nat>)
    ensures r.Some? ==> r.value < |lines| && IsCommaBaseLine(lines[r.value])
  {
    if |lines| == 0 then None
    else if IsCommaBaseLine(lines[0]) then Some(0)
    else match FirstCommaBaseLine(lines[1..])
      case None => None
      case Some(k) => Some(k + 1)
  }

  /** It is the first: no earlier line is one, and there is none exactly
      when no line is. */
  lemma {:induction false} FirstCommaBaseLineIsFirst(lines: seq<string>)
    ensures FirstCommaBaseLine(lines).Some? ==>
      forall j :: 0 <= j < FirstCommaBaseLine(lines).value ==> !IsCommaBaseLine(lines[j])
    ensures FirstCommaBaseLine(lines).None? <==> forall j :: 0 <= j < |lines| ==> !IsCommaBaseLine(lines[j])
    decreases |lines|
  {
    if |lines| > 0 && !IsCommaBaseLine(lines[0]) {
      FirstCommaBaseLineIsFirst(lines[1..]);
      assert forall j :: 1 <= j < |lines| ==> lines[j] == lines[1..][j - 1];
    }
  }

  /** `line.split(":")[1].strip().split(",")`: the comma-separated values after
      the first colon, up to a second colon if there is one. */
  function DeclaredValues(line: string): (values: seq<string>)
    requires ':' in line
    ensures |values| >= 1
  {
    SplitHasSecond(line, ':');
    Split(Strip(Split(line, ':')[1]), ',')
  }

  /** None of the values holds a comma. */
  lemma DeclaredValuesLackCommas(line: string)
    requires ':' in line
    ensures forall k :: 0 <= k < |DeclaredValues(line)| ==> ',' !in DeclaredValues(line)[k]
  {
    SplitHasSecond(line, ':');
    SplitPiecesLackSeparator(Strip(Split(line, ':')[1]), ',');
  }

  /** The values of the first line starting with `directive`, or none. */
  function FirstDeclared(lines: seq<string>, directive: string): seq<string>
    requires ':' in directive
  {
    match FirstWithPrefix(lines, directive)
    case None => []
    case Some(k) =>
      FirstWithPrefixIsFirst(lines, directive);
      assert lines[k][..|directive|] == directive;
      DeclaredValues(lines[k])
  }

  /** The outcome of `detect_existing_versions`. */
  datatype Detection = Detection(versions: set<string>, singleLineMulti: bool)

  /** `detect_existing_versions(content, product, multi)`. A comma-separated
      base line answers only when `multi` is off; otherwise the scan falls
      through to the flavor's own directives, dropping empty values. */
  function Detect(content: string, product: FullProduct, multi: bool): (d: Detection)
  {
    var lines := Split(content, '\n');
    var comma := FirstCommaBaseLine(lines);
    if comma.Some? && !multi then
      assert ':' == lines[comma.value][12];
      Detection(set v | v in DeclaredValues(lines[comma.value]) :: Strip(v), true)
    else
      Detection(NonEmptyStripped(DeclaredFor(lines, product)), false)
  }

  /** The values the flavor's own directives declare, current classic before
      classic. */
  function DeclaredFor(lines: seq<string>, product: FullProduct): seq<string> {
    match product
    case WowClassic => FirstDeclared(lines, CURRENT_CLASSIC) + FirstDeclared(lines, CLASSIC)
    case WowClassicEra => FirstDeclared(lines, VANILLA)
    case Wow => []
  }

  /** The single-line flag is set exactly for a comma-separated base line
      outside multi mode; otherwise the versions are non-empty stripped
      values, and retail declares none. */
  lemma DetectFacts(content: string, product: FullProduct, multi: bool)
    ensures Detect(content, product, multi).singleLineMulti <==> !multi && FirstCommaBaseLine(Split(content, '\n')).Some?
    ensures !Detect(content, product, multi).singleLineMulti ==>
      forall v | v in Detect(content, product, multi).versions :: v != "" && Strip(v) == v
    ensures !Detect(content, product, multi).singleLineMulti && product == Wow ==> Detect(content, product, multi).versions == {}
  {
    StrippedValuesTrimmed(DeclaredFor(Split(content, '\n'), product));
  }

  /** The non-empty stripped values, as the set comprehension builds them. */
  function NonEmptyStripped(values: seq<string>): set<string> {
    set v | v in values && Strip(v) != "" :: Strip(v)
  }

  /** Each of them is non-empty and its own strip. */
  lemma StrippedValuesTrimmed(values: seq<string>)
    ensures forall v | v in NonEmptyStripped(values) :: v != "" && Strip(v) == v
  {
    forall v | v in NonEmptyStripped(values) ensures Strip(v) == v {
      var w :| w in values && Strip(w) != "" && Strip(w) == v;
      StripIdempotent(w);
    }
  }

  // ---------------------------------------------------------------------------
  // Examples of detection

  /** With `multi` set, a retail text declares nothing: a comma-separated
      base line is passed over and retail has no flavor directive. */
  lemma RetailMultiDetectsNothing(content: string)
    ensures Detect(content, Wow, true) == Detection({}, false)
  {
  }

  /** The values of a directive line `tag:values` are those after the
      colon. */
  lemma DeclaredValuesOf(tag: string, values: string)
    requires ':' !in tag && ':' !in values
    ensures ':' in tag + ":" + values
      && DeclaredValues(tag + ":" + values) == Split(Strip(values), ',')
  {
    assert (tag + ":" + values)[|tag|] == ':';
    assert tag + ":" + values == tag + [':'] + values;
    SplitAtFirst(tag, values, ':');
    SplitWithoutSeparator(values, ':');
  }

  /** One leading space is stripped from a value without other whitespace
      at its ends. */
  lemma StripLeadingSpace(s: string)
    requires |s| > 0 && !IsSpace(s[0]) && !IsSpace(s[|s| - 1])
    ensures Strip(" " + s) == s
  {
    assert (" " + s)[1..] == s;
    StripFixesTrimmed(s);
  }

  /** A single value after the colon. */
  lemma OneValue(tag: string, value: string)
    requires ':' !in tag && ':' !in value && ',' !in value
    requires |value| > 0 && !IsSpace(value[0]) && !IsSpace(value[|value| - 1])
    ensures ':' in tag + ": " + value
      && DeclaredValues(tag + ": " + value) == [value]
      && NonEmptyStripped(DeclaredValues(tag + ": " + value)) == {value}
  {
    assert tag + ": " + value == tag + ":" + (" " + value);
    DeclaredValuesOf(tag, " " + value);
    StripLeadingSpace(value);
    SplitWithoutSeparator(value, ',');
    StripFixesTrimmed(value);
  }

  /** The first line declares one value for `directive`. */
  lemma FirstLineDeclares(lines: seq<string>, directive: string, tag: string, value: string)
    requires ':' in directive && |lines| > 0 && StartsWith(lines[0], directive)
    requires lines[0] == tag + ": " + value
    requires ':' !in tag && ':' !in value && ',' !in value
    requires |value| > 0 && !IsSpace(value[0]) && !IsSpace(value[|value| - 1])
    ensures FirstDeclared(lines, directive) == [value]
  {
    OneValue(tag, value);
  }

  /** No line declares anything for `directive`. */
  lemma NoLineDeclares(lines: seq<string>, directive: string)
    requires ':' in directive
    requires forall i :: 0 <= i < |lines| ==> !StartsWith(lines[i], directive)
    ensures FirstDeclared(lines, directive) == []
  {
    FirstWithPrefixIsFirst(lines, directive);
  }

  /** A classic or classic era text whose first line is its flavor's
      directive with one value, in multi mode, declares that value. */
  lemma DetectOneDeclared(content: string, first: string, second: string, tag: string, value: string, product: FullProduct)
    requires product != Wow && Split(content, '\n') == [first, second]
    requires first == tag + ": " + value
    requires ':' !in tag && ':' !in value && ',' !in value
    requires |value| > 0 && !IsSpace(value[0]) && !IsSpace(value[|value| - 1])
    requires StartsWith(first, if product == WowClassic then CURRENT_CLASSIC else VANILLA)
    requires product == WowClassic ==> !StartsWith(second, CLASSIC)
    ensures Detect(content, product, true) == Detection({value}, false)
  {
    if product == WowClassic {
      MistsLineDeclares(first, second, tag, value);
    } else {
      FirstLineDeclares([first, second], VANILLA, tag, value);
    }
    OneValue(tag, value);
  }

  /** A Mists line followed by a line that is not a Classic line declares
      the Mists line's value for classic. */
  lemma MistsLineDeclares(first: string, second: string, tag: string, value: string)
    requires first == tag + ": " + value && StartsWith(first, CURRENT_CLASSIC)
    requires ':' !in tag && ':' !in value && ',' !in value
    requires |value| > 0 && !IsSpace(value[0]) && !IsSpace(value[|value| - 1])
    requires !StartsWith(second, CLASSIC)
    ensures DeclaredFor([first, second], WowClassic) == [value]
  {
    var lines := [first, second];
    FirstLineDeclares(lines, CURRENT_CLASSIC, tag, value);
    if StartsWith(first, CLASSIC) {
      LineMatchesAtMostOneDirective(first, 3, 4);
    }
    NoLineDeclares(lines, CLASSIC);
    assert DeclaredFor(lines, WowClassic) == [value] + [];
  }

  /** A classic text whose first two lines are the Mists and the Classic
      directive, each with one value, in multi mode, declares both. */
  lemma DetectBothClassic(content: string, lines: seq<string>, mistsTag: string, mists: string,
                          classicTag: string, classic: string)
    requires Split(content, '\n') == lines && |lines| >= 2
    requires lines[0] == mistsTag + ": " + mists && StartsWith(lines[0], CURRENT_CLASSIC)
    requires lines[1] == classicTag + ": " + classic && StartsWith(lines[1], CLASSIC)
    requires ':' !in mistsTag && ':' !in mists && ',' !in mists
    requires ':' !in classicTag && ':' !in classic && ',' !in classic
    requires |mists| > 0 && !IsSpace(mists[0]) && !IsSpace(mists[|mists| - 1])
    requires |classic| > 0 && !IsSpace(classic[0]) && !IsSpace(classic[|classic| - 1])
    ensures Detect(content, WowClassic, true) == Detection({mists, classic}, false)
  {
    FirstLineDeclares(lines, CURRENT_CLASSIC, mistsTag, mists);
    if StartsWith(lines[0], CLASSIC) {
      LineMatchesAtMostOneDirective(lines[0], 3, 4);
    }
    FirstLineDeclares(lines[1..], CLASSIC, classicTag, classic);
    assert FirstDeclared(lines, CLASSIC) == FirstDeclared(lines[1..], CLASSIC);
    assert DeclaredFor(lines, WowClassic) == [mists, classic];
    StripFixesTrimmed(mists);
    StripFixesTrimmed(classic);
    assert NonEmptyStripped([mists, classic]) == {mists, classic};
  }

  /** Without a base directive line, `multi` makes no difference, and a
      retail text declares nothing. */
  lemma DetectWithoutBaseLine(content: string, product: FullProduct)
    requires forall i :: 0 <= i < |Split(content, '\n')| ==> !StartsWith(Split(content, '\n')[i], BASE)
    ensures Detect(content, product, false) == Detect(content, product, true)
    ensures Detect(content, Wow, false) == Detection({}, false)
  {
    FirstCommaBaseLineIsFirst(Split(content, '\n'));
  }

  /** `## Interface: a, b` is a comma-separated base line. */
  lemma CommaLineMatches(a: string, b: string)
    ensures IsCommaBaseLine(BASE + " " + a + ", " + b)
  {
    var first := BASE + " " + a + ", " + b;
    assert first[..|BASE|] == BASE;
    assert first[|BASE|..][|a| + 1] == ',';
  }

  /** `a, b` splits at its comma. */
  lemma SplitAtComma(a: string, b: string)
    requires ',' !in a && ',' !in b
    ensures Split(a + ", " + b, ',') == [a, " " + b]
  {
    assert a + ", " + b == a + [','] + (" " + b);
    SplitAtFirst(a, " " + b, ',');
    assert ',' !in " " + b;
    SplitWithoutSeparator(" " + b, ',');
  }

  /** Stripping `a` and ` b` gives `a` and `b`. */
  lemma StripPair(a: string, b: string)
    requires |a| > 0 && !IsSpace(a[0]) && !IsSpace(a[|a| - 1])
    requires |b| > 0 && !IsSpace(b[0]) && !IsSpace(b[|b| - 1])
    ensures (set v | v in [a, " " + b] :: Strip(v)) == {a, b}
  {
    StripFixesTrimmed(a);
    StripLeadingSpace(b);
  }

  /** The values it declares are `a` and `b`. */
  lemma CommaLineValues(a: string, b: string)
    requires ':' !in a && ',' !in a && ':' !in b && ',' !in b
    requires |a| > 0 && !IsSpace(a[0]) && !IsSpace(a[|a| - 1])
    requires |b| > 0 && !IsSpace(b[0]) && !IsSpace(b[|b| - 1])
    ensures ':' in BASE + " " + a + ", " + b
      && (set v | v in DeclaredValues(BASE + " " + a + ", " + b) :: Strip(v)) == {a, b}
  {
    var values := a + ", " + b;
    assert BASE + " " + a + ", " + b == "## Interface" + ":" + (" " + values);
    assert ':' !in values;
    DeclaredValuesOf("## Interface", " " + values);
    StripLeadingSpace(values);
    SplitAtComma(a, b);
    StripPair(a, b);
  }

  /** Outside multi mode, a first line `## Interface: a, b` declares `a`
      and `b` and sets the single-line flag, whatever the flavor. */
  lemma DetectCommaLine(content: string, rest: seq<string>, a: string, b: string, product: FullProduct)
    requires Split(content, '\n') == [BASE + " " + a + ", " + b] + rest
    requires ':' !in a && ',' !in a && ':' !in b && ',' !in b
    requires |a| > 0 && !IsSpace(a[0]) && !IsSpace(a[|a| - 1])
    requires |b| > 0 && !IsSpace(b[0]) && !IsSpace(b[|b| - 1])
    ensures Detect(content, product, false) == Detection({a, b}, true)
  {
    CommaLineMatches(a, b);
    CommaLineValues(a, b);
  }

  // ---------------------------------------------------------------------------
  // Resolving versions

  /** How a candidate version is judged worth adding: above the flavor's
      version as a string (`collect_all_versions`), or above the detected
      number as an integer (`get_versions_from_detected`). */
  datatype Threshold = AboveString(base: string) | AboveNumber(detected: string)

  /** Whether `version` passes the threshold; converting to `int` may raise. */
  function Newer(threshold: Threshold, version: string): Result<bool> {
    match threshold
    case AboveString(base) => Ok(StrLess(base, version))
    case AboveNumber(detected) =>
      match ParseInt(detected)
      case Raise(e) => Raise(e)
      case Ok(x) =>
        match ParseInt(version)
        case Raise(e) => Raise(e)
        case Ok(y) => Ok(x < y)
  }

  /** After `prev`, asks for candidate `c`'s version and adds it when it
      passes the threshold; an error so far, or in this step, propagates. */
  function AddStep(entries: map<Product, string>, fetch: Product -> Option<string>, threshold: Threshold,
                   prev: Result<set<string>>, c: Product): Result<set<string>>
  {
    match prev
    case Raise(e) => Raise(e)
    case Ok(acc) =>
      match Lookup(entries, fetch, c)
      case Raise(e) => Raise(e)
      case Ok(v) =>
        match Newer(threshold, v)
        case Raise(e) => Raise(e)
        case Ok(newer) => Ok(if newer then acc + {v} else acc)
  }

  /** `versions` after asking, in order, for each candidate's version and
      adding it when it passes the threshold. */
  function AddNewer(entries: map<Product, string>, fetch: Product -> Option<string>, threshold: Threshold,
                    cs: seq<Product>, versions: set<string>): Result<set<string>>
    decreases |cs|
  {
    if |cs| == 0 then Ok(versions)
    else AddStep(entries, fetch, threshold, AddNewer(entries, fetch, threshold, cs[..|cs| - 1], versions), cs[|cs| - 1])
  }

  /** `collect_all_versions`: the flavor's version, plus each beta or test
      version that is greater as a string. */
  function AllVersions(entries: map<Product, string>, fetch: Product -> Option<string>,
                       product: FullProduct, beta: bool, test: bool): Result<set<string>>
  {
    match Lookup(entries, fetch, product)
    case Raise(e) => Raise(e)
    case Ok(base) => AddNewer(entries, fetch, AboveString(base), Candidates(product, beta, test), {base})
  }

  /** The flavor `get_versions_from_detected` assigns to a major number. */
  function FlavorOfMajor(major: int): (flavor: FullProduct)
    ensures flavor == WowClassicEra <==> major == 1
    ensures flavor == WowClassic <==> major != 1 && major < 11
    ensures flavor == Wow <==> major >= 11
  {
    if major == 1 then WowClassicEra
    else if major < 11 then WowClassic
    else Wow
  }

  /** The major number of a detected version, `int(d.strip()[:-4])`: all but
      its last four characters. */
  function MajorOf(detected: string): Result<int> {
    ParseInt(DropLast4(Strip(detected)))
  }

  /** `versions` with the flavor's version added, then each of its beta and
      test versions that passes the threshold. */
  function WithFlavor(entries: map<Product, string>, fetch: Product -> Option<string>, threshold: Threshold,
                      flavor: FullProduct, beta: bool, test: bool, versions: set<string>): Result<set<string>>
  {
    match Lookup(entries, fetch, flavor)
    case Raise(e) => Raise(e)
    case Ok(v) => AddNewer(entries, fetch, threshold, Candidates(flavor, beta, test), versions + {v})
  }

  /** One step of `get_versions_from_detected`: a detected number already in
      the result is skipped; otherwise everything but its last four
      characters is its major number, which picks the flavor whose version
      is added, together with each beta or test version numerically above
      the detected number. */
  function ExpandDetected(entries: map<Product, string>, fetch: Product -> Option<string>,
                          beta: bool, test: bool, detected: string, versions: set<string>): Result<set<string>>
  {
    if Strip(detected) in versions then Ok(versions)
    else
      match MajorOf(detected)
      case Raise(e) => Raise(e)
      case Ok(major) =>
        WithFlavor(entries, fetch, AboveNumber(detected), FlavorOfMajor(major), beta, test, versions)
  }

  /** After `prev`, one step of `get_versions_from_detected`. */
  function ExpandStep(entries: map<Product, string>, fetch: Product -> Option<string>,
                      beta: bool, test: bool, prev: Result<set<string>>, detected: string): Result<set<string>>
  {
    match prev
    case Raise(e) => Raise(e)
    case Ok(acc) => ExpandDetected(entries, fetch, beta, test, detected, acc)
  }

  /** `get_versions_from_detected` when the detected set is visited in the
      order `order`. */
  function FromDetected(entries: map<Product, string>, fetch: Product -> Option<string>,
                        beta: bool, test: bool, order: seq<string>): Result<set<string>>
    decreases |order|
  {
    if |order| == 0 then Ok({})
    else ExpandStep(entries, fetch, beta, test, FromDetected(entries, fetch, beta, test, order[..|order| - 1]), order[|order| - 1])
  }

  /** `order` visits every element of `s` exactly once. */
  ghost predicate Enumerates(order: seq<string>, s: set<string>) {
    (forall x :: x in order <==> x in s)
    && forall i, j :: 0 <= i < j < |order| ==> order[i] != order[j]
  }

  // ---------------------------------------------------------------------------
  // The products asked for, in order

  /** The candidates `AddNewer` asks the cache for: each in turn, up to and
      including the first whose step raises. */
  function AddNewerAsks(entries: map<Product, string>, fetch: Product -> Option<string>, threshold: Threshold,
                        cs: seq<Product>, versions: set<string>): seq<Product>
    decreases |cs|
  {
    if |cs| == 0 then []
    else
      var init := cs[..|cs| - 1];
      AddNewerAsks(entries, fetch, threshold, init, versions)
        + (if AddNewer(entries, fetch, threshold, init, versions).Ok? then [cs[|cs| - 1]] else [])
  }

  /** The products `WithFlavor` asks for: the flavor, then, unless its
      version raises, its beta and test candidates. */
  function WithFlavorAsks(entries: map<Product, string>, fetch: Product -> Option<string>, threshold: Threshold,
                          flavor: FullProduct, beta: bool, test: bool, versions: set<string>): seq<Product>
  {
    [flavor]
      + match Lookup(entries, fetch, flavor)
        case Raise(_) => []
        case Ok(v) => AddNewerAsks(entries, fetch, threshold, Candidates(flavor, beta, test), versions + {v})
  }

  /** The products one step of `get_versions_from_detected` asks for:
      none for a skipped number or an unreadable major number. */
  function ExpandAsks(entries: map<Product, string>, fetch: Product -> Option<string>,
                      beta: bool, test: bool, detected: string, versions: set<string>): seq<Product>
  {
    if Strip(detected) in versions then []
    else
      match MajorOf(detected)
      case Raise(_) => []
      case Ok(major) =>
        WithFlavorAsks(entries, fetch, AboveNumber(detected), FlavorOfMajor(major), beta, test, versions)
  }

  /** The products `ExpandStep` asks for after `prev`: none once an error
      was raised. */
  function ExpandStepAsks(entries: map<Product, string>, fetch: Product -> Option<string>,
                          beta: bool, test: bool, prev: Result<set<string>>, detected: string): seq<Product>
  {
    match prev
    case Raise(_) => []
    case Ok(acc) => ExpandAsks(entries, fetch, beta, test, detected, acc)
  }

  /** The products `get_versions_from_detected` asks for when it visits the
      detected numbers in the order `order`, up to the first error. */
  function FromDetectedAsks(entries: map<Product, string>, fetch: Product -> Option<string>,
                            beta: bool, test: bool, order: seq<string>): seq<Product>
    decreases |order|
  {
    if |order| == 0 then []
    else
      var init := order[..|order| - 1];
      FromDetectedAsks(entries, fetch, beta, test, init)
        + ExpandStepAsks(entries, fetch, beta, test, FromDetected(entries, fetch, beta, test, init), order[|order| - 1])
  }

  /** The products `collect_all_versions` asks for: the flavor, then, unless
      its version raises, its beta and test candidates. */
  function AllVersionsAsks(entries: map<Product, string>, fetch: Product -> Option<string>,
                           product: FullProduct, beta: bool, test: bool): seq<Product>
  {
    [product]
      + match Lookup(entries, fetch, product)
        case Raise(_) => []
        case Ok(base) => AddNewerAsks(entries, fetch, AboveString(base), Candidates(product, beta, test), {base})
  }

  // ---------------------------------------------------------------------------
  // The imperative operations

  /** Asks for `product`'s version and adds it when it passes the threshold:
      one step of the fold `AddNewer`. An error raised earlier propagates
      without asking. */
  method AddIfNewer(threshold: Threshold, product: Product, prev: Result<set<string>>,
                    cache: VersionCache, fetch: Product -> Option<string>, ghost entries: map<Product, string>)
    returns (r: Result<set<string>>)
    requires SameAnswers(cache.entries, entries, fetch)
    modifies cache
    ensures SameAnswers(cache.entries, entries, fetch)
    ensures r == AddStep(entries, fetch, threshold, prev, product)
    ensures cache.entries == if prev.Raise? then old(cache.entries) else Stored(old(cache.entries), fetch, product)
  {
    if prev.Raise? {
      return prev;
    }
    var version := ProductVersion(product, cache, fetch);
    if version.Raise? {
      return Raise(version.error);
    }
    var newer := Newer(threshold, version.value);
    if newer.Raise? {
      return Raise(newer.error);
    }
    r := Ok(if newer.value then prev.value + {version.value} else prev.value);
  }

  /** Asks for one more candidate: the fold over the candidates asked so far
      grows by one step, and so does the cache built from `base`. */
  method AskNext(threshold: Threshold, product: Product, prev: Result<set<string>>,
                 cache: VersionCache, fetch: Product -> Option<string>, ghost entries: map<Product, string>,
                 ghost asked: seq<Product>, ghost start: set<string>, ghost base: map<Product, string>)
    returns (r: Result<set<string>>)
    requires SameAnswers(cache.entries, entries, fetch)
    requires prev == AddNewer(entries, fetch, threshold, asked, start)
    requires cache.entries == StoredAll(base, fetch, AddNewerAsks(entries, fetch, threshold, asked, start))
    modifies cache
    ensures SameAnswers(cache.entries, entries, fetch)
    ensures r == AddNewer(entries, fetch, threshold, asked + [product], start)
    ensures cache.entries == StoredAll(base, fetch, AddNewerAsks(entries, fetch, threshold, asked + [product], start))
  {
    r := AddIfNewer(threshold, product, prev, cache, fetch, entries);
    AddNewerSnoc(entries, fetch, threshold, asked, product, start);
    AddNewerAsksSnoc(entries, fetch, threshold, asked, product, start);
    var before := AddNewerAsks(entries, fetch, threshold, asked, start);
    if prev.Ok? {
      StoredAllSnoc(base, fetch, before, product);
    } else {
      assert before + [] == before;
    }
  }

  /** `if flag:` around the question for one more candidate. */
  method AskWhen(flag: bool, threshold: Threshold, product: Product, prev: Result<set<string>>,
                 cache: VersionCache, fetch: Product -> Option<string>, ghost entries: map<Product, string>,
                 ghost asked: seq<Product>, ghost start: set<string>, ghost base: map<Product, string>)
    returns (r: Result<set<string>>)
    requires SameAnswers(cache.entries, entries, fetch)
    requires prev == AddNewer(entries, fetch, threshold, asked, start)
    requires cache.entries == StoredAll(base, fetch, AddNewerAsks(entries, fetch, threshold, asked, start))
    modifies cache
    ensures SameAnswers(cache.entries, entries, fetch)
    ensures r == AddNewer(entries, fetch, threshold, asked + (if flag then [product] else []), start)
    ensures cache.entries
         == StoredAll(base, fetch, AddNewerAsks(entries, fetch, threshold, asked + (if flag then [product] else []), start))
  {
    if flag {
      r := AskNext(threshold, product, prev, cache, fetch, entries, asked, start, base);
    } else {
      r := prev;
      assert asked + [] == asked;
    }
  }

  /** The loops of `collect_all_versions`: asks for each product's version
      in turn and adds those that pass the threshold. */
  method AddAllNewer(threshold: Threshold, products: seq<Product>, prev: Result<set<string>>,
                     cache: VersionCache, fetch: Product -> Option<string>, ghost entries: map<Product, string>,
                     ghost asked: seq<Product>, ghost start: set<string>, ghost base: map<Product, string>)
    returns (r: Result<set<string>>)
    requires SameAnswers(cache.entries, entries, fetch)
    requires prev == AddNewer(entries, fetch, threshold, asked, start)
    requires cache.entries == StoredAll(base, fetch, AddNewerAsks(entries, fetch, threshold, asked, start))
    modifies cache
    ensures SameAnswers(cache.entries, entries, fetch)
    ensures r == AddNewer(entries, fetch, threshold, asked + products, start)
    ensures cache.entries == StoredAll(base, fetch, AddNewerAsks(entries, fetch, threshold, asked + products, start))
  {
    r := prev;
    assert asked + products[..0] == asked;
    for i := 0 to |products|
      invariant SameAnswers(cache.entries, entries, fetch)
      invariant r == AddNewer(entries, fetch, threshold, asked + products[..i], start)
      invariant cache.entries == StoredAll(base, fetch, AddNewerAsks(entries, fetch, threshold, asked + products[..i], start))
    {
      r := AskNext(threshold, products[i], r, cache, fetch, entries, asked + products[..i], start, base);
      AppendNext(asked, products, i);
    }
    assert products[..|products|] == products;
  }

  /** Taking one more element of `b` after `a`. */
  lemma AppendNext(a: seq<Product>, b: seq<Product>, i: nat)
    requires i < |b|
    ensures a + b[..i + 1] == a + b[..i] + [b[i]]
  {
    assert b[..i + 1] == b[..i] + [b[i]];
  }

  /** `collect_all_versions`, asking the cache for each product in turn;
      the cache ends up holding every answer that was asked for and parsed. */
  method CollectAllVersions(product: FullProduct, beta: bool, test: bool,
                            cache: VersionCache, fetch: Product -> Option<string>)
    returns (r: Result<set<string>>)
    modifies cache
    ensures r == AllVersions(old(cache.entries), fetch, product, beta, test)
    ensures SameAnswers(cache.entries, old(cache.entries), fetch)
    ensures cache.entries == StoredAll(old(cache.entries), fetch, AllVersionsAsks(old(cache.entries), fetch, product, beta, test))
  {
    ghost var entries := cache.entries;
    var baseVersion := ProductVersion(product, cache, fetch);
    StoredAllCons(entries, fetch, product, []);
    if baseVersion.Raise? {
      return Raise(baseVersion.error);
    }
    var base := baseVersion.value;
    ghost var asks := AddNewerAsks(entries, fetch, AboveString(base), Candidates(product, beta, test), {base});
    r := AddCandidates(AboveString(base), product, beta, test, {base}, cache, fetch, entries);
    StoredAllCons(entries, fetch, product, asks);
  }

  /** The beta products when `beta` is set, then the test products when
      `test` is set, each added when it passes the threshold. */
  method AddCandidates(threshold: Threshold, product: FullProduct, beta: bool, test: bool, start: set<string>,
                       cache: VersionCache, fetch: Product -> Option<string>, ghost entries: map<Product, string>)
    returns (r: Result<set<string>>)
    requires SameAnswers(cache.entries, entries, fetch)
    modifies cache
    ensures SameAnswers(cache.entries, entries, fetch)
    ensures r == AddNewer(entries, fetch, threshold, Candidates(product, beta, test), start)
    ensures cache.entries
         == StoredAll(old(cache.entries), fetch, AddNewerAsks(entries, fetch, threshold, Candidates(product, beta, test), start))
  {
    ghost var base := cache.entries;
    ghost var asked: seq<Product> := [];
    r := Ok(start);
    if beta {
      r := AddAllNewer(threshold, BetaProducts(product), r, cache, fetch, entries, asked, start, base);
      asked := asked + BetaProducts(product);
    }
    if test {
      r := AddAllNewer(threshold, TestProducts(product), r, cache, fetch, entries, asked, start, base);
      asked := asked + TestProducts(product);
    }
    assert asked == Candidates(product, beta, test);
  }

  /** The classic era branch of `get_versions_from_detected`. */
  method ExpandEra(threshold: Threshold, test: bool, versions: set<string>,
                   cache: VersionCache, fetch: Product -> Option<string>, ghost entries: map<Product, string>)
    returns (r: Result<set<string>>)
    requires SameAnswers(cache.entries, entries, fetch)
    modifies cache
    ensures SameAnswers(cache.entries, entries, fetch)
    ensures r == WithFlavor(entries, fetch, threshold, WowClassicEra, false, test, versions)
    ensures cache.entries
         == StoredAll(old(cache.entries), fetch, WithFlavorAsks(entries, fetch, threshold, WowClassicEra, false, test, versions))
  {
    ghost var before := cache.entries;
    var base := ProductVersion(WowClassicEra, cache, fetch);
    assert Lookup(before, fetch, WowClassicEra) == Lookup(entries, fetch, WowClassicEra);
    StoredAllCons(before, fetch, WowClassicEra, []);
    if base.Raise? {
      return Raise(base.error);
    }
    var start := versions + {base.value};
    ghost var asks := AddNewerAsks(entries, fetch, threshold, Candidates(WowClassicEra, false, test), start);
    r := AskWhen(test, threshold, WowClassicEraPtr, Ok(start), cache, fetch, entries, [], start, cache.entries);
    assert [] + (if test then [WowClassicEraPtr] else []) == Candidates(WowClassicEra, false, test);
    StoredAllCons(before, fetch, WowClassicEra, asks);
  }

  /** The classic branch of `get_versions_from_detected`. */
  method ExpandClassic(threshold: Threshold, beta: bool, test: bool, versions: set<string>,
                       cache: VersionCache, fetch: Product -> Option<string>, ghost entries: map<Product, string>)
    returns (r: Result<set<string>>)
    requires SameAnswers(cache.entries, entries, fetch)
    modifies cache
    ensures SameAnswers(cache.entries, entries, fetch)
    ensures r == WithFlavor(entries, fetch, threshold, WowClassic, beta, test, versions)
    ensures cache.entries
         == StoredAll(old(cache.entries), fetch, WithFlavorAsks(entries, fetch, threshold, WowClassic, beta, test, versions))
  {
    ghost var before := cache.entries;
    var base := ProductVersion(WowClassic, cache, fetch);
    assert Lookup(before, fetch, WowClassic) == Lookup(entries, fetch, WowClassic);
    StoredAllCons(before, fetch, WowClassic, []);
    if base.Raise? {
      return Raise(base.error);
    }
    ghost var asks := AddNewerAsks(entries, fetch, threshold, Candidates(WowClassic, beta, test), versions + {base.value});
    r := AskClassicCandidates(threshold, beta, test, versions + {base.value}, cache, fetch, entries);
    StoredAllCons(before, fetch, WowClassic, asks);
  }

  /** The classic beta and PTR versions, asked for in turn. */
  method AskClassicCandidates(threshold: Threshold, beta: bool, test: bool, start: set<string>,
                              cache: VersionCache, fetch: Product -> Option<string>, ghost entries: map<Product, string>)
    returns (r: Result<set<string>>)
    requires SameAnswers(cache.entries, entries, fetch)
    modifies cache
    ensures SameAnswers(cache.entries, entries, fetch)
    ensures r == AddNewer(entries, fetch, threshold, Candidates(WowClassic, beta, test), start)
    ensures cache.entries
         == StoredAll(old(cache.entries), fetch, AddNewerAsks(entries, fetch, threshold, Candidates(WowClassic, beta, test), start))
  {
    ghost var base := cache.entries;
    r := AskWhen(beta, threshold, WowClassicBeta, Ok(start), cache, fetch, entries, [], start, base);
    ghost var betas := [] + (if beta then [WowClassicBeta] else []);
    r := AskWhen(test, threshold, WowClassicPtr, r, cache, fetch, entries, betas, start, base);
    assert betas + (if test then [WowClassicPtr] else []) == Candidates(WowClassic, beta, test);
  }

  /** The retail branch of `get_versions_from_detected`. */
  method ExpandRetail(threshold: Threshold, beta: bool, test: bool, versions: set<string>,
                      cache: VersionCache, fetch: Product -> Option<string>, ghost entries: map<Product, string>)
    returns (r: Result<set<string>>)
    requires SameAnswers(cache.entries, entries, fetch)
    modifies cache
    ensures SameAnswers(cache.entries, entries, fetch)
    ensures r == WithFlavor(entries, fetch, threshold, Wow, beta, test, versions)
    ensures cache.entries
         == StoredAll(old(cache.entries), fetch, WithFlavorAsks(entries, fetch, threshold, Wow, beta, test, versions))
  {
    ghost var before := cache.entries;
    var base := ProductVersion(Wow, cache, fetch);
    assert Lookup(before, fetch, Wow) == Lookup(entries, fetch, Wow);
    StoredAllCons(before, fetch, Wow, []);
    if base.Raise? {
      return Raise(base.error);
    }
    ghost var asks := AddNewerAsks(entries, fetch, threshold, Candidates(Wow, beta, test), versions + {base.value});
    r := AskRetailCandidates(threshold, beta, test, versions + {base.value}, cache, fetch, entries);
    StoredAllCons(before, fetch, Wow, asks);
  }

  /** The retail beta version, then the two retail test versions, asked for
      in turn. */
  method AskRetailCandidates(threshold: Threshold, beta: bool, test: bool, start: set<string>,
                             cache: VersionCache, fetch: Product -> Option<string>, ghost entries: map<Product, string>)
    returns (r: Result<set<string>>)
    requires SameAnswers(cache.entries, entries, fetch)
    modifies cache
    ensures SameAnswers(cache.entries, entries, fetch)
    ensures r == AddNewer(entries, fetch, threshold, Candidates(Wow, beta, test), start)
    ensures cache.entries
         == StoredAll(old(cache.entries), fetch, AddNewerAsks(entries, fetch, threshold, Candidates(Wow, beta, test), start))
  {
    ghost var base := cache.entries;
    r := AskWhen(beta, threshold, WowBeta, Ok(start), cache, fetch, entries, [], start, base);
    ghost var betas := [] + (if beta then [WowBeta] else []);
    r := AskRetailTests(test, threshold, r, cache, fetch, entries, betas, start, base);
    assert betas + (if test then [Wowt, Wowxptr] else []) == Candidates(Wow, beta, test);
  }

  /** `if test:` around the two retail test products, asked for in turn. */
  method AskRetailTests(test: bool, threshold: Threshold, prev: Result<set<string>>,
                        cache: VersionCache, fetch: Product -> Option<string>, ghost entries: map<Product, string>,
                        ghost asked: seq<Product>, ghost start: set<string>, ghost base: map<Product, string>)
    returns (r: Result<set<string>>)
    requires SameAnswers(cache.entries, entries, fetch)
    requires prev == AddNewer(entries, fetch, threshold, asked, start)
    requires cache.entries == StoredAll(base, fetch, AddNewerAsks(entries, fetch, threshold, asked, start))
    modifies cache
    ensures SameAnswers(cache.entries, entries, fetch)
    ensures r == AddNewer(entries, fetch, threshold, asked + (if test then [Wowt, Wowxptr] else []), start)
    ensures cache.entries
         == StoredAll(base, fetch, AddNewerAsks(entries, fetch, threshold, asked + (if test then [Wowt, Wowxptr] else []), start))
  {
    if test {
      r := AskNext(threshold, Wowt, prev, cache, fetch, entries, asked, start, base);
      r := AskNext(threshold, Wowxptr, r, cache, fetch, entries, asked + [Wowt], start, base);
      assert asked + [Wowt] + [Wowxptr] == asked + [Wowt, Wowxptr];
    } else {
      r := prev;
      assert asked + [] == asked;
    }
  }

  /** The body of the loop in `get_versions_from_detected` for one detected
      number. */
  method ExpandOne(detected: string, beta: bool, test: bool, versions: set<string>,
                   cache: VersionCache, fetch: Product -> Option<string>, ghost entries: map<Product, string>)
    returns (r: Result<set<string>>)
    requires SameAnswers(cache.entries, entries, fetch)
    modifies cache
    ensures SameAnswers(cache.entries, entries, fetch)
    ensures r == ExpandDetected(entries, fetch, beta, test, detected, versions)
    ensures cache.entries == StoredAll(old(cache.entries), fetch, ExpandAsks(entries, fetch, beta, test, detected, versions))
  {
    if Strip(detected) in versions {
      return Ok(versions);
    }
    var major := MajorOf(detected);
    if major.Raise? {
      return Raise(major.error);
    }
    if major.value == 1 {
      r := ExpandEra(AboveNumber(detected), test, versions, cache, fetch, entries);
      assert Candidates(WowClassicEra, beta, test) == Candidates(WowClassicEra, false, test);
    } else if major.value < 11 {
      r := ExpandClassic(AboveNumber(detected), beta, test, versions, cache, fetch, entries);
    } else {
      r := ExpandRetail(AboveNumber(detected), beta, test, versions, cache, fetch, entries);
    }
  }

  /** Visiting one more unvisited number keeps the order a repetition-free
      listing of the visited ones. */
  lemma VisitNext(order: seq<string>, detected: set<string>, rest: set<string>, d: string)
    requires rest <= detected && d in rest
    requires forall x :: x in order <==> x in detected && x !in rest
    requires forall i, j :: 0 <= i < j < |order| ==> order[i] != order[j]
    ensures forall x :: x in order + [d] <==> x in detected && x !in rest - {d}
    ensures forall i, j :: 0 <= i < j < |order + [d]| ==> (order + [d])[i] != (order + [d])[j]
  {
  }

  /** Once an error is raised, the numbers left unvisited complete the order
      without changing the outcome. */
  lemma {:induction false} CompleteOrder(entries: map<Product, string>, fetch: Product -> Option<string>,
                                         beta: bool, test: bool, order: seq<string>,
                                         detected: set<string>, rest: set<string>)
    returns (full: seq<string>)
    requires FromDetected(entries, fetch, beta, test, order).Raise?
    requires rest <= detected
    requires forall x :: x in order <==> x in detected && x !in rest
    requires forall i, j :: 0 <= i < j < |order| ==> order[i] != order[j]
    ensures Enumerates(full, detected)
    ensures FromDetected(entries, fetch, beta, test, full) == FromDetected(entries, fetch, beta, test, order)
    ensures FromDetectedAsks(entries, fetch, beta, test, full) == FromDetectedAsks(entries, fetch, beta, test, order)
    decreases rest
  {
    if rest == {} {
      return order;
    }
    var x :| x in rest;
    VisitNext(order, detected, rest, x);
    FromDetectedSnoc(entries, fetch, beta, test, order, x);
    FromDetectedAsksSnoc(entries, fetch, beta, test, order, x);
    assert FromDetectedAsks(entries, fetch, beta, test, order) + [] == FromDetectedAsks(entries, fetch, beta, test, order);
    full := CompleteOrder(entries, fetch, beta, test, order + [x], detected, rest - {x});
  }

  /** `get_versions_from_detected`: the detected set is visited in an order
      Python does not fix; `order` is the order this run took, completed by
      the numbers left unvisited when an error ended the run. */
  method GetVersionsFromDetected(detected: set<string>, beta: bool, test: bool,
                                 cache: VersionCache, fetch: Product -> Option<string>)
    returns (r: Result<set<string>>, ghost order: seq<string>)
    modifies cache
    ensures Enumerates(order, detected)
    ensures r == FromDetected(old(cache.entries), fetch, beta, test, order)
    ensures SameAnswers(cache.entries, old(cache.entries), fetch)
    ensures cache.entries == StoredAll(old(cache.entries), fetch, FromDetectedAsks(old(cache.entries), fetch, beta, test, order))
  {
    ghost var entries := cache.entries;
    var versions: set<string> := {};
    var rest := detected;
    order := [];
    while rest != {}
      invariant rest <= detected
      invariant forall x :: x in order <==> x in detected && x !in rest
      invariant forall i, j :: 0 <= i < j < |order| ==> order[i] != order[j]
      invariant SameAnswers(cache.entries, entries, fetch)
      invariant FromDetected(entries, fetch, beta, test, order) == Ok(versions)
      invariant cache.entries == StoredAll(entries, fetch, FromDetectedAsks(entries, fetch, beta, test, order))
      decreases rest
    {
      var d :| d in rest;
      ghost var asked := FromDetectedAsks(entries, fetch, beta, test, order);
      var next := ExpandOne(d, beta, test, versions, cache, fetch, entries);
      StoredAllAppend(entries, fetch, asked, ExpandAsks(entries, fetch, beta, test, d, versions));
      VisitNext(order, detected, rest, d);
      FromDetectedSnoc(entries, fetch, beta, test, order, d);
      FromDetectedAsksSnoc(entries, fetch, beta, test, order, d);
      rest := rest - {d};
      order := order + [d];
      if next.Raise? {
        order := CompleteOrder(entries, fetch, beta, test, order, detected, rest);
        return next, order;
      }
      versions := next.value;
    }
    r := Ok(versions);
  }

  // ---------------------------------------------------------------------------
  // Lemmas about the folds

  /** Appending one candidate is one more step of the fold. */
  lemma AddNewerSnoc(entries: map<Product, string>, fetch: Product -> Option<string>, threshold: Threshold,
                     cs: seq<Product>, c: Product, versions: set<string>)
    ensures AddNewer(entries, fetch, threshold, cs + [c], versions)
         == AddStep(entries, fetch, threshold, AddNewer(entries, fetch, threshold, cs, versions), c)
  {
    assert (cs + [c])[..|cs|] == cs;
  }

  /** Appending one candidate asks for it exactly when the fold so far has
      not raised. */
  lemma AddNewerAsksSnoc(entries: map<Product, string>, fetch: Product -> Option<string>, threshold: Threshold,
                         cs: seq<Product>, c: Product, versions: set<string>)
    ensures AddNewerAsks(entries, fetch, threshold, cs + [c], versions)
         == AddNewerAsks(entries, fetch, threshold, cs, versions)
            + (if AddNewer(entries, fetch, threshold, cs, versions).Ok? then [c] else [])
  {
    assert (cs + [c])[..|cs|] == cs;
  }

  /** Once the fold raises, asking for more candidates does not change that. */
  lemma {:induction false} AddNewerRaisePrefix(entries: map<Product, string>, fetch: Product -> Option<string>,
                                               threshold: Threshold, prefix: seq<Product>, cs: seq<Product>,
                                               versions: set<string>)
    requires prefix <= cs
    requires AddNewer(entries, fetch, threshold, prefix, versions).Raise?
    ensures AddNewer(entries, fetch, threshold, cs, versions) == AddNewer(entries, fetch, threshold, prefix, versions)
    decreases |cs|
  {
    if |cs| > |prefix| {
      assert prefix <= cs[..|cs| - 1];
      AddNewerRaisePrefix(entries, fetch, threshold, prefix, cs[..|cs| - 1], versions);
    } else {
      assert cs == prefix;
    }
  }

  /** Visiting one more detected number is one more step of the fold. */
  lemma FromDetectedSnoc(entries: map<Product, string>, fetch: Product -> Option<string>,
                         beta: bool, test: bool, order: seq<string>, d: string)
    ensures FromDetected(entries, fetch, beta, test, order + [d])
         == ExpandStep(entries, fetch, beta, test, FromDetected(entries, fetch, beta, test, order), d)
  {
    assert (order + [d])[..|order|] == order;
  }
  /** Visiting one more detected number asks for what its step asks for,
      unless an error was raised before. */
  lemma FromDetectedAsksSnoc(entries: map<Product, string>, fetch: Product -> Option<string>,
                             beta: bool, test: bool, order: seq<string>, d: string)
    ensures FromDetectedAsks(entries, fetch, beta, test, order + [d])
         == FromDetectedAsks(entries, fetch, beta, test, order)
            + ExpandStepAsks(entries, fetch, beta, test, FromDetected(entries, fetch, beta, test, order), d)
  {
    assert (order + [d])[..|order|] == order;
  }


  /** Candidate `c` answers `v`, and `v` passes the threshold. */
  predicate Passes(entries: map<Product, string>, fetch: Product -> Option<string>, threshold: Threshold,
                   c: Product, v: string) {
    Lookup(entries, fetch, c) == Ok(v) && Newer(threshold, v) == Ok(true)
  }

  /** What one step adds: the candidate's version, when it passes. */
  lemma AddStepMembers(entries: map<Product, string>, fetch: Product -> Option<string>, threshold: Threshold,
                       prev: Result<set<string>>, c: Product, v: string)
    requires AddStep(entries, fetch, threshold, prev, c).Ok?
    ensures prev.Ok?
    ensures v in AddStep(entries, fetch, threshold, prev, c).value <==> v in prev.value || Passes(entries, fetch, threshold, c, v)
  {
  }

  /** What the fold holds: the starting versions and exactly those
      candidate versions that pass the threshold. */
  lemma {:induction false} AddNewerMembers(entries: map<Product, string>, fetch: Product -> Option<string>,
                                           threshold: Threshold, cs: seq<Product>, start: set<string>, v: string)
    requires AddNewer(entries, fetch, threshold, cs, start).Ok?
    ensures v in AddNewer(entries, fetch, threshold, cs, start).value <==>
      v in start || exists c | c in cs :: Passes(entries, fetch, threshold, c, v)
    decreases |cs|
  {
    if |cs| > 0 {
      var init, last := cs[..|cs| - 1], cs[|cs| - 1];
      AddStepMembers(entries, fetch, threshold, AddNewer(entries, fetch, threshold, init, start), last, v);
      AddNewerMembers(entries, fetch, threshold, init, start, v);
      PassesSnoc(entries, fetch, threshold, cs, v);
    }
  }

  /** Some candidate passes exactly when one before the last does or the
      last does. */
  lemma PassesSnoc(entries: map<Product, string>, fetch: Product -> Option<string>, threshold: Threshold,
                   cs: seq<Product>, v: string)
    requires |cs| > 0
    ensures (exists c | c in cs :: Passes(entries, fetch, threshold, c, v))
        <==> (exists c | c in cs[..|cs| - 1] :: Passes(entries, fetch, threshold, c, v))
             || Passes(entries, fetch, threshold, cs[|cs| - 1], v)
  {
    var init, last := cs[..|cs| - 1], cs[|cs| - 1];
    assert cs == init + [last];
  }

  /** Two caches that answer alike give the same fold. */
  lemma {:induction false} AddNewerSameAnswers(a: map<Product, string>, b: map<Product, string>,
                                               fetch: Product -> Option<string>, threshold: Threshold,
                                               cs: seq<Product>, start: set<string>)
    requires SameAnswers(a, b, fetch)
    ensures AddNewer(a, fetch, threshold, cs, start) == AddNewer(b, fetch, threshold, cs, start)
    ensures AddNewerAsks(a, fetch, threshold, cs, start) == AddNewerAsks(b, fetch, threshold, cs, start)
    decreases |cs|
  {
    if |cs| > 0 {
      AddNewerSameAnswers(a, b, fetch, threshold, cs[..|cs| - 1], start);
      assert Lookup(a, fetch, cs[|cs| - 1]) == Lookup(b, fetch, cs[|cs| - 1]);
    }
  }

  /** ... and the same step of `get_versions_from_detected`. */
  lemma ExpandDetectedSameAnswers(a: map<Product, string>, b: map<Product, string>, fetch: Product -> Option<string>,
                                  beta: bool, test: bool, detected: string, versions: set<string>)
    requires SameAnswers(a, b, fetch)
    ensures ExpandDetected(a, fetch, beta, test, detected, versions) == ExpandDetected(b, fetch, beta, test, detected, versions)
    ensures ExpandAsks(a, fetch, beta, test, detected, versions) == ExpandAsks(b, fetch, beta, test, detected, versions)
  {
    if Strip(detected) !in versions && MajorOf(detected).Ok? {
      var flavor := FlavorOfMajor(MajorOf(detected).value);
      assert Lookup(a, fetch, flavor) == Lookup(b, fetch, flavor);
      if Lookup(a, fetch, flavor).Ok? {
        AddNewerSameAnswers(a, b, fetch, AboveNumber(detected), Candidates(flavor, beta, test),
                            versions + {Lookup(a, fetch, flavor).value});
      }
    }
  }

  /** ... and the same `get_versions_from_detected`. */
  lemma {:induction false} FromDetectedSameAnswers(a: map<Product, string>, b: map<Product, string>,
                                                   fetch: Product -> Option<string>, beta: bool, test: bool,
                                                   order: seq<string>)
    requires SameAnswers(a, b, fetch)
    ensures FromDetected(a, fetch, beta, test, order) == FromDetected(b, fetch, beta, test, order)
    ensures FromDetectedAsks(a, fetch, beta, test, order) == FromDetectedAsks(b, fetch, beta, test, order)
    decreases |order|
  {
    if |order| > 0 {
      var init := order[..|order| - 1];
      FromDetectedSameAnswers(a, b, fetch, beta, test, init);
      if FromDetected(a, fetch, beta, test, init).Ok? {
        ExpandDetectedSameAnswers(a, b, fetch, beta, test, order[|order| - 1], FromDetected(a, fetch, beta, test, init).value);
      }
    }
  }

  /** A candidate whose version is available and comparable with the
      threshold. */
  predicate Comparable(entries: map<Product, string>, fetch: Product -> Option<string>, threshold: Threshold, c: Product) {
    Lookup(entries, fetch, c).Ok? && Newer(threshold, Lookup(entries, fetch, c).value).Ok?
  }

  /** The fold succeeds exactly when every candidate is comparable. */
  lemma {:induction false} AddNewerSucceeds(entries: map<Product, string>, fetch: Product -> Option<string>,
                                            threshold: Threshold, cs: seq<Product>, start: set<string>)
    ensures AddNewer(entries, fetch, threshold, cs, start).Ok? <==>
      forall c | c in cs :: Comparable(entries, fetch, threshold, c)
    decreases |cs|
  {
    if |cs| > 0 {
      var init, last := cs[..|cs| - 1], cs[|cs| - 1];
      AddNewerSucceeds(entries, fetch, threshold, init, start);
      AddStepOk(entries, fetch, threshold, AddNewer(entries, fetch, threshold, init, start), last);
      assert cs == init + [last];
    }
  }

  /** One step succeeds exactly when the fold so far did and the candidate
      is comparable. */
  lemma AddStepOk(entries: map<Product, string>, fetch: Product -> Option<string>, threshold: Threshold,
                  prev: Result<set<string>>, c: Product)
    ensures AddStep(entries, fetch, threshold, prev, c).Ok? <==> prev.Ok? && Comparable(entries, fetch, threshold, c)
  {
  }

  /** `collect_all_versions` holds the flavor's version, and besides it
      exactly the beta versions (when `beta` is set) and test versions (when
      `test` is set) that are greater as strings. It fails only when some
      version it asks for cannot be parsed. */
  lemma AllVersionsMembers(entries: map<Product, string>, fetch: Product -> Option<string>,
                           product: FullProduct, beta: bool, test: bool, v: string)
    requires AllVersions(entries, fetch, product, beta, test).Ok?
    ensures Lookup(entries, fetch, product).Ok?
    ensures Lookup(entries, fetch, product).value in AllVersions(entries, fetch, product, beta, test).value
    ensures v in AllVersions(entries, fetch, product, beta, test).value <==>
      v == Lookup(entries, fetch, product).value
      || exists c | c in Candidates(product, beta, test) ::
           Lookup(entries, fetch, c) == Ok(v) && StrLess(Lookup(entries, fetch, product).value, v)
  {
    var base := Lookup(entries, fetch, product).value;
    var cs := Candidates(product, beta, test);
    AddNewerMembers(entries, fetch, AboveString(base), cs, {base}, base);
    AddNewerMembers(entries, fetch, AboveString(base), cs, {base}, v);
  }

  /** `collect_all_versions` fails only on a version it cannot parse: with
      every version it asks for available, it succeeds. */
  lemma AllVersionsSucceeds(entries: map<Product, string>, fetch: Product -> Option<string>,
                            product: FullProduct, beta: bool, test: bool)
    requires Lookup(entries, fetch, product).Ok?
    requires forall c | c in Candidates(product, beta, test) :: Lookup(entries, fetch, c).Ok?
    ensures AllVersions(entries, fetch, product, beta, test).Ok?
  {
    var base := Lookup(entries, fetch, product).value;
    AddNewerSucceeds(entries, fetch, AboveString(base), Candidates(product, beta, test), {base});
  }
  /** The fold asks for a prefix of the candidates, in order, and for all of
      them when it succeeds. */
  lemma {:induction false} AddNewerAsksPrefix(entries: map<Product, string>, fetch: Product -> Option<string>,
                                              threshold: Threshold, cs: seq<Product>, start: set<string>)
    ensures AddNewerAsks(entries, fetch, threshold, cs, start) <= cs
    ensures AddNewer(entries, fetch, threshold, cs, start).Ok? ==> AddNewerAsks(entries, fetch, threshold, cs, start) == cs
    decreases |cs|
  {
    if |cs| > 0 {
      var init, last := cs[..|cs| - 1], cs[|cs| - 1];
      assert cs == init + [last];
      AddNewerAsksPrefix(entries, fetch, threshold, init, start);
      AddNewerSnoc(entries, fetch, threshold, init, last, start);
      AddNewerAsksSnoc(entries, fetch, threshold, init, last, start);
      if AddNewer(entries, fetch, threshold, init, start).Raise? {
        assert AddNewerAsks(entries, fetch, threshold, init, start) + [] == AddNewerAsks(entries, fetch, threshold, init, start);
      }
    }
  }

  /** When the fold raises, the last candidate it asks for is the first
      whose step raises. */
  lemma {:induction false} AddNewerAsksStop(entries: map<Product, string>, fetch: Product -> Option<string>,
                                            threshold: Threshold, cs: seq<Product>, start: set<string>)
    requires AddNewer(entries, fetch, threshold, cs, start).Raise?
    ensures var n := |AddNewerAsks(entries, fetch, threshold, cs, start)|;
      0 < n <= |cs| && AddNewer(entries, fetch, threshold, cs[..n - 1], start).Ok?
      && AddNewer(entries, fetch, threshold, cs[..n], start).Raise?
    decreases |cs|
  {
    var init, last := cs[..|cs| - 1], cs[|cs| - 1];
    assert cs == init + [last];
    AddNewerSnoc(entries, fetch, threshold, init, last, start);
    AddNewerAsksSnoc(entries, fetch, threshold, init, last, start);
    var asks := AddNewerAsks(entries, fetch, threshold, init, start);
    if AddNewer(entries, fetch, threshold, init, start).Raise? {
      AddNewerAsksStop(entries, fetch, threshold, init, start);
      assert asks + [] == asks;
      var n := |asks|;
      assert cs[..n] == init[..n] && cs[..n - 1] == init[..n - 1];
    } else {
      AddNewerAsksPrefix(entries, fetch, threshold, init, start);
      assert cs[..|cs| - 1] == init && cs[..|cs|] == cs;
    }
  }

  /** `collect_all_versions` asks first for the flavor itself; when it
      succeeds it has asked, after the flavor, for every beta and test
      candidate in order. */
  lemma AllVersionsAsksShape(entries: map<Product, string>, fetch: Product -> Option<string>,
                             product: FullProduct, beta: bool, test: bool)
    ensures AllVersionsAsks(entries, fetch, product, beta, test)[0] == product
    ensures AllVersionsAsks(entries, fetch, product, beta, test) <= [product] + Candidates(product, beta, test)
    ensures AllVersions(entries, fetch, product, beta, test).Ok? ==>
      AllVersionsAsks(entries, fetch, product, beta, test) == [product] + Candidates(product, beta, test)
  {
    if Lookup(entries, fetch, product).Ok? {
      var base := Lookup(entries, fetch, product).value;
      AddNewerAsksPrefix(entries, fetch, AboveString(base), Candidates(product, beta, test), {base});
    }
  }

  /** After `collect_all_versions`, the cache holds the flavor's version
      unless its request failed or did not parse; when the collection
      succeeds it holds, in the same way, every beta and test candidate
      asked for, and nothing else is added. */
  lemma CollectPopulatesCache(entries: map<Product, string>, fetch: Product -> Option<string>,
                              product: FullProduct, beta: bool, test: bool, p: Product)
    ensures var cached := StoredAll(entries, fetch, AllVersionsAsks(entries, fetch, product, beta, test));
      p in cached ==> p in entries || p == product || p in Candidates(product, beta, test)
    ensures var cached := StoredAll(entries, fetch, AllVersionsAsks(entries, fetch, product, beta, test));
      product in cached <==> product in entries || (fetch(product).Some? && ParseVersionBody(fetch(product).value).Ok?)
    ensures var cached := StoredAll(entries, fetch, AllVersionsAsks(entries, fetch, product, beta, test));
      AllVersions(entries, fetch, product, beta, test).Ok? && p in Candidates(product, beta, test) ==>
        (p in cached <==> p in entries || (fetch(p).Some? && ParseVersionBody(fetch(p).value).Ok?))
  {
    var asks := AllVersionsAsks(entries, fetch, product, beta, test);
    AllVersionsAsksShape(entries, fetch, product, beta, test);
    StoredAllCaches(entries, fetch, asks, p);
    StoredAllCaches(entries, fetch, asks, product);
    assert product in asks;
    if p in asks {
      assert p in [product] + Candidates(product, beta, test);
    }
  }


  /** Versions are compared as strings: a six-digit beta version is not
      newer than a five-digit retail version that starts with a larger
      digit, so it is left out. */
  lemma StringComparisonDropsLongerVersion(fetch: Product -> Option<string>)
    ensures AllVersions(map[Wow := "90000", WowBeta := "100000"], fetch, Wow, true, false) == Ok({"90000"})
  {
    assert !StrLess("90000", "100000");
    AddNewerSnoc(map[Wow := "90000", WowBeta := "100000"], fetch, AboveString("90000"), [], WowBeta, {"90000"});
  }

  // ---------------------------------------------------------------------------
  // Lemmas about get_versions_from_detected

  /** On digit strings of one length the two thresholds agree: comparing as
      integers, as `get_versions_from_detected` does, and comparing as
      strings, as `collect_all_versions` does. */
  lemma ThresholdsAgreeOnEqualLength(base: string, version: string)
    requires |base| > 0 && AllDigits(base) && AllDigits(version) && |base| == |version|
    ensures Newer(AboveNumber(base), version) == Newer(AboveString(base), version)
  {
    ParseIntOfDigits(base);
    ParseIntOfDigits(version);
    StrLessMatchesValueOnEqualLength(base, version);
  }

  /** A detected number of at most four characters has an empty major
      number, which `int()` refuses. */
  lemma ShortDetectedRaises(entries: map<Product, string>, fetch: Product -> Option<string>,
                            beta: bool, test: bool, detected: string, versions: set<string>)
    requires |Strip(detected)| <= 4 && Strip(detected) !in versions
    ensures ExpandDetected(entries, fetch, beta, test, detected, versions) == Raise(ValueError)
  {
    ParseIntOfEmpty();
  }

  /** Major numbers of interface versions: 11.0.7 is retail, 4.4.1 classic
      and 1.15.3 classic era. */
  lemma MajorExamples()
    ensures MajorOf("110007") == Ok(11) && FlavorOfMajor(11) == Wow
    ensures MajorOf("40401") == Ok(4) && FlavorOfMajor(4) == WowClassic
    ensures MajorOf("11503") == Ok(1) && FlavorOfMajor(1) == WowClassicEra
  {
    StripFixesTrimmed("110007");
    StripFixesTrimmed("40401");
    StripFixesTrimmed("11503");
    assert DropLast4("110007") == "11" && DropLast4("40401") == "4" && DropLast4("11503") == "1";
    ParseIntOfDigits("11");
    ParseIntOfDigits("4");
    ParseIntOfDigits("1");
    assert Value("1") == 1;
  }

  /** A version the service can answer for some product. */
  ghost predicate FromService(entries: map<Product, string>, fetch: Product -> Option<string>, v: string) {
    exists p: Product :: Lookup(entries, fetch, p) == Ok(v)
  }

  /** Every version of `vs` is one the service answered. */
  ghost predicate AllFromService(entries: map<Product, string>, fetch: Product -> Option<string>, vs: set<string>) {
    forall v | v in vs :: FromService(entries, fetch, v)
  }

  /** `vs` stands for the detected number: it holds the number itself, or
      the version of the flavor its major number picks. */
  predicate Represents(entries: map<Product, string>, fetch: Product -> Option<string>, vs: set<string>, detected: string) {
    Strip(detected) in vs
    || (MajorOf(detected).Ok?
        && Lookup(entries, fetch, FlavorOfMajor(MajorOf(detected).value)).Ok?
        && Lookup(entries, fetch, FlavorOfMajor(MajorOf(detected).value)).value in vs)
  }

  /** The fold adds only versions the service answered. */
  lemma AddNewerFromService(entries: map<Product, string>, fetch: Product -> Option<string>,
                            threshold: Threshold, cs: seq<Product>, start: set<string>)
    requires AddNewer(entries, fetch, threshold, cs, start).Ok?
    requires AllFromService(entries, fetch, start)
    ensures AllFromService(entries, fetch, AddNewer(entries, fetch, threshold, cs, start).value)
  {
    forall v | v in AddNewer(entries, fetch, threshold, cs, start).value
      ensures FromService(entries, fetch, v)
    {
      AddNewerMembers(entries, fetch, threshold, cs, start, v);
      if v !in start {
        var c :| c in cs && Passes(entries, fetch, threshold, c, v);
      }
    }
  }

  /** Each step of `get_versions_from_detected` keeps what it had and adds
      only versions the service answered; the result represents the
      detected number. */
  lemma ExpandDetectedGrows(entries: map<Product, string>, fetch: Product -> Option<string>,
                            beta: bool, test: bool, detected: string, versions: set<string>)
    requires ExpandDetected(entries, fetch, beta, test, detected, versions).Ok?
    ensures versions <= ExpandDetected(entries, fetch, beta, test, detected, versions).value
    ensures AllFromService(entries, fetch, versions) ==>
      AllFromService(entries, fetch, ExpandDetected(entries, fetch, beta, test, detected, versions).value)
    ensures Represents(entries, fetch, ExpandDetected(entries, fetch, beta, test, detected, versions).value, detected)
  {
    if Strip(detected) !in versions {
      var flavor := FlavorOfMajor(MajorOf(detected).value);
      var v := Lookup(entries, fetch, flavor).value;
      var cs := Candidates(flavor, beta, test);
      var threshold := AboveNumber(detected);
      var r := AddNewer(entries, fetch, threshold, cs, versions + {v});
      assert r == ExpandDetected(entries, fetch, beta, test, detected, versions);
      forall x | x in versions + {v} ensures x in r.value {
        AddNewerMembers(entries, fetch, threshold, cs, versions + {v}, x);
      }
      if AllFromService(entries, fetch, versions) {
        assert FromService(entries, fetch, v);
        AddNewerFromService(entries, fetch, threshold, cs, versions + {v});
      }
    }
  }

  /** A larger set still represents the detected number. */
  lemma RepresentsGrows(entries: map<Product, string>, fetch: Product -> Option<string>,
                        a: set<string>, b: set<string>, detected: string)
    requires a <= b && Represents(entries, fetch, a, detected)
    ensures Represents(entries, fetch, b, detected)
  {
  }

  /** One step of `get_versions_from_detected` keeps both facts below. */
  lemma CoversStep(entries: map<Product, string>, fetch: Product -> Option<string>, beta: bool, test: bool,
                   init: seq<string>, last: string, prev: set<string>, next: set<string>)
    requires AllFromService(entries, fetch, prev)
    requires forall i | 0 <= i < |init| :: Represents(entries, fetch, prev, init[i])
    requires ExpandDetected(entries, fetch, beta, test, last, prev) == Ok(next)
    ensures AllFromService(entries, fetch, next)
    ensures forall i | 0 <= i < |init + [last]| :: Represents(entries, fetch, next, (init + [last])[i])
  {
    ExpandDetectedGrows(entries, fetch, beta, test, last, prev);
    forall i | 0 <= i < |init + [last]|
      ensures Represents(entries, fetch, next, (init + [last])[i])
    {
      if i < |init| {
        RepresentsGrows(entries, fetch, prev, next, init[i]);
      }
    }
  }

  /** What a successful `get_versions_from_detected` returns, whatever the
      visiting order: only versions the service answered, and a
      representative of every detected number. */
  lemma {:induction false} FromDetectedCovers(entries: map<Product, string>, fetch: Product -> Option<string>,
                                              beta: bool, test: bool, order: seq<string>)
    requires FromDetected(entries, fetch, beta, test, order).Ok?
    ensures AllFromService(entries, fetch, FromDetected(entries, fetch, beta, test, order).value)
    ensures forall i | 0 <= i < |order| :: Represents(entries, fetch, FromDetected(entries, fetch, beta, test, order).value, order[i])
    decreases |order|
  {
    if |order| > 0 {
      var init, last := order[..|order| - 1], order[|order| - 1];
      assert order == init + [last];
      FromDetectedSnoc(entries, fetch, beta, test, init, last);
      var prev := FromDetected(entries, fetch, beta, test, init);
      FromDetectedCovers(entries, fetch, beta, test, init);
      CoversStep(entries, fetch, beta, test, init, last, prev.value, FromDetected(entries, fetch, beta, test, order).value);
    }
  }

  /** Retail at 11.0.7 and a retail beta at 11.1.0. */
  const ORDER_ENTRIES: map<Product, string> := map[Wow := "110007", WowBeta := "110100"]

  /** The major number of a digit string longer than four is the value of
      its leading digits. */
  lemma MajorOfDigits(detected: string)
    requires |detected| > 4 && AllDigits(detected)
    ensures MajorOf(detected) == Ok(Value(detected[..|detected| - 4]))
  {
    assert IsDigit(detected[0]) && IsDigit(detected[|detected| - 1]);
    StripFixesTrimmed(detected);
    ParseIntOfDigits(detected[..|detected| - 4]);
  }

  lemma RetailMajors()
    ensures MajorOf("110200") == Ok(11) && MajorOf("110007") == Ok(11)
  {
    MajorOfHigh();
    MajorOfLow();
  }

  lemma MajorOfHigh()
    ensures MajorOf("110200") == Ok(11)
  {
    MajorOfDigits("110200");
    assert "110200"[..2] == "11";
    ValueOfEleven();
  }

  lemma MajorOfLow()
    ensures MajorOf("110007") == Ok(11)
  {
    MajorOfDigits("110007");
    assert "110007"[..2] == "11";
    ValueOfEleven();
  }

  lemma ValueOfEleven()
    ensures Value("11") == 11
  {
    assert Value("1") == 1 by { assert "1"[..0] == ""; }
    assert "11"[..1] == "1";
  }

  lemma RetailComparisons()
    ensures Newer(AboveNumber("110200"), "110100") == Ok(false)
    ensures Newer(AboveNumber("110007"), "110100") == Ok(true)
  {
    BetaBelowHigh();
    BetaAboveLow();
  }

  lemma BetaBelowHigh()
    ensures Newer(AboveNumber("110200"), "110100") == Ok(false)
  {
    ThresholdsAgreeOnEqualLength("110200", "110100");
    assert "110200"[1..][1..] == "0200" && "110100"[1..][1..] == "0100";
  }

  lemma BetaAboveLow()
    ensures Newer(AboveNumber("110007"), "110100") == Ok(true)
  {
    ThresholdsAgreeOnEqualLength("110007", "110100");
    assert "110007"[1..][1..] == "0007" && "110100"[1..][1..] == "0100";
  }

  /** A detected number not yet present is expanded through its flavor. */
  lemma ExpandFresh(entries: map<Product, string>, fetch: Product -> Option<string>, beta: bool, test: bool,
                    detected: string, versions: set<string>, major: int)
    requires MajorOf(detected) == Ok(major) && Strip(detected) !in versions
    ensures ExpandDetected(entries, fetch, beta, test, detected, versions)
         == WithFlavor(entries, fetch, AboveNumber(detected), FlavorOfMajor(major), beta, test, versions)
  {
  }

  /** Retail with its beta: the retail version, and the beta version when
      it passes the threshold. */
  lemma RetailWithBeta(fetch: Product -> Option<string>, threshold: Threshold, versions: set<string>, newer: bool)
    requires Newer(threshold, "110100") == Ok(newer)
    ensures WithFlavor(ORDER_ENTRIES, fetch, threshold, Wow, true, false, versions)
         == Ok(versions + {"110007"} + (if newer then {"110100"} else {}))
  {
    assert Lookup(ORDER_ENTRIES, fetch, Wow) == Ok("110007");
    assert Lookup(ORDER_ENTRIES, fetch, WowBeta) == Ok("110100");
    assert Candidates(Wow, true, false) == [] + [WowBeta];
    AddNewerSnoc(ORDER_ENTRIES, fetch, threshold, [], WowBeta, versions + {"110007"});
    assert AddNewer(ORDER_ENTRIES, fetch, threshold, [WowBeta], versions + {"110007"})
        == AddStep(ORDER_ENTRIES, fetch, threshold, Ok(versions + {"110007"}), WowBeta);
    assert WithFlavor(ORDER_ENTRIES, fetch, threshold, Wow, true, false, versions)
        == AddNewer(ORDER_ENTRIES, fetch, threshold, [WowBeta], versions + {"110007"});
    if !newer {
      assert versions + {"110007"} + {} == versions + {"110007"};
    }
  }

  /** One retail step from `versions`, with the retail beta in play. */
  lemma RetailStep(fetch: Product -> Option<string>, detected: string, versions: set<string>, newer: bool)
    requires MajorOf(detected) == Ok(11) && Strip(detected) !in versions
    requires Newer(AboveNumber(detected), "110100") == Ok(newer)
    ensures ExpandDetected(ORDER_ENTRIES, fetch, true, false, detected, versions)
         == Ok(versions + {"110007"} + (if newer then {"110100"} else {}))
  {
    ExpandFresh(ORDER_ENTRIES, fetch, true, false, detected, versions, 11);
    RetailWithBeta(fetch, AboveNumber(detected), versions, newer);
  }

  /** Visiting two detected numbers is two steps from the empty set. */
  lemma FromDetectedPair(entries: map<Product, string>, fetch: Product -> Option<string>,
                         beta: bool, test: bool, first: string, second: string)
    ensures FromDetected(entries, fetch, beta, test, [first, second])
         == ExpandStep(entries, fetch, beta, test, ExpandDetected(entries, fetch, beta, test, first, {}), second)
  {
    FromDetectedSnoc(entries, fetch, beta, test, [], first);
    assert [] + [first] == [first];
    FromDetectedSnoc(entries, fetch, beta, test, [first], second);
    assert [first] + [second] == [first, second];
  }

  /** Visiting 110200 first: 110007 is then already present and skipped. */
  lemma HighFirst(fetch: Product -> Option<string>)
    ensures FromDetected(ORDER_ENTRIES, fetch, true, false, ["110200", "110007"]) == Ok({"110007"})
  {
    FromDetectedPair(ORDER_ENTRIES, fetch, true, false, "110200", "110007");
    HighFirstFirstStep(fetch);
    HighFirstSecondStep(fetch);
  }

  lemma HighFirstFirstStep(fetch: Product -> Option<string>)
    ensures ExpandDetected(ORDER_ENTRIES, fetch, true, false, "110200", {}) == Ok({"110007"})
  {
    MajorOfHigh();
    BetaBelowHigh();
    StripFixesTrimmed("110200");
    RetailStep(fetch, "110200", {}, false);
  }

  lemma HighFirstSecondStep(fetch: Product -> Option<string>)
    ensures ExpandDetected(ORDER_ENTRIES, fetch, true, false, "110007", {"110007"}) == Ok({"110007"})
  {
    StripFixesTrimmed("110007");
  }

  /** Visiting 110007 first brings in the beta version. */
  lemma LowFirst(fetch: Product -> Option<string>)
    ensures FromDetected(ORDER_ENTRIES, fetch, true, false, ["110007", "110200"]) == Ok({"110007", "110100"})
  {
    FromDetectedPair(ORDER_ENTRIES, fetch, true, false, "110007", "110200");
    LowFirstFirstStep(fetch);
    LowFirstSecondStep(fetch);
  }

  lemma LowFirstFirstStep(fetch: Product -> Option<string>)
    ensures ExpandDetected(ORDER_ENTRIES, fetch, true, false, "110007", {}) == Ok({"110007", "110100"})
  {
    MajorOfLow();
    BetaAboveLow();
    StripFixesTrimmed("110007");
    RetailStep(fetch, "110007", {}, true);
    assert {} + {"110007"} + {"110100"} == {"110007", "110100"};
  }

  lemma LowFirstSecondStep(fetch: Product -> Option<string>)
    ensures ExpandDetected(ORDER_ENTRIES, fetch, true, false, "110200", {"110007", "110100"}) == Ok({"110007", "110100"})
  {
    MajorOfHigh();
    BetaBelowHigh();
    StripFixesTrimmed("110200");
    RetailStep(fetch, "110200", {"110007", "110100"}, false);
    BothPresent();
  }

  lemma BothPresent()
    ensures {"110007", "110100"} + {"110007"} + (if false then {"110100"} else {}) == {"110007", "110100"}
  {
  }

  /** The result depends on the order Python happens to visit the detected
      set in: a number already present is skipped, so with retail at 11.0.7
      and a beta at 11.1.0, detecting {110200, 110007} yields the beta
      version only when 110007 is visited first. */
  lemma VisitOrderMatters(fetch: Product -> Option<string>)
    ensures FromDetected(ORDER_ENTRIES, fetch, true, false, ["110200", "110007"])
         != FromDetected(ORDER_ENTRIES, fetch, true, false, ["110007", "110200"])
  {
    HighFirst(fetch);
    LowFirst(fetch);
    assert "110100" !in {"110007"};
  }
}
