# TOC interface updater, modelled in Dafny

This project models the core of a World of Warcraft add-on tool. The tool
walks an add-on's directory tree and finds every `.toc` file. In each one it
rewrites the `## Interface:` directive lines (and the per-flavor
`## Interface-Mists:`, `## Interface-Classic:` and `## Interface-Vanilla:`
lines) to the game versions that the Battle.net version service currently
reports.

The model is split into these modules:

- `Catalog` (catalog.dfy): the directive labels, filename suffixes, suffix
  table and both regular expressions of constants.py.
- `VersionClient` (version_client.dfy): `product_version` and its per-run
  cache. The cache is a class whose `entries` map the method updates. The
  HTTP request is a `fetch` parameter.
- `VersionResolver` (version_resolver.dfy): the beta and test product
  tables, `detect_existing_versions`, `collect_all_versions` and
  `get_versions_from_detected`. Each is a specification function, and the
  loops that ask the cache one product at a time are methods proved equal
  to those functions.
- `ContentUpdater` and `DistContentUpdater` (content_updater.dfy,
  dist_content_updater.dfy): the regular-expression rewrite of the
  directive lines, in both copies of `update_interface_content`.
- `FileProcessor` (file_processor.dfy): `write_file_if_changed` over a
  `Disk` and a `ModifiedFiles` list (both classes), and
  `get_product_for_file`.
- `Update` (update.py → update.dfy): `update_versions`, with newline
  normalisation, sorting by integer value, and detection followed by
  re-resolution.
- `Processing` (processing.dfy): `process_files` as a method over the walk.
  The walk is the list of (directory, name) entries that `os.walk` yields.
  The method is proved against the sequence of `update_versions` calls it
  must make.
- `PyStr` (pystr.dfy): the Python `str` operations the code relies on
  (`split`, `strip`, `int()`, `zfill`, `rsplit`, `replace`, `splitlines`,
  string comparison), each with Python's semantics.

`StoredAll(entries, fetch, ps)` is the version cache after
`product_version` has been asked for each product of `ps` in turn. Each
specification function has a partner that lists the products it asks for,
in order, up to the first exception (`AllVersionsAsks`, `FromDetectedAsks`,
`InterfaceAsks`). Every method of `VersionClient`, `VersionResolver` and
`Update` that asks the cache ensures that the new cache is `StoredAll` of
the old one over that list. The methods of `Processing` state the cache
only up to the answers it gives (`SameAnswers`), as the `Processing.ProcessFiles`
line under "## Left out" says.

Python raises exceptions; the model returns a `Result` whose error names the
exception (`ValueError`, `IndexError`, `FileNotFoundError`). Python leaves
the iteration order of a `set` unfixed, so the model makes that order an
explicit sequence (`Enumerates(order, s)`). Every statement about a
resolved version set holds for each order Python could take.

The model follows the code as written, including these behaviours that are
easy to miss:

- A comma-separated `## Interface:` line in multi mode does not make
  detection return nothing. Detection falls through to the flavor's own
  directives (`DetectWithoutBaseLine`, `DetectFacts`).
- A detected `11503` has major number `1`. It therefore resolves through
  classic era, even when it was found on an `## Interface-Classic:` line
  (`MajorExamples`).
- The docstring of `write_file_if_changed` (file_processor.py:26) promises
  to preserve the original line endings. Its `line_ending` is the constant
  `"\n"`, so a file with CR LF endings is written back with LF endings
  (`NormalizeCrLfText`, `WriteFileIfChanged`).
- `get_versions_from_detected` skips a detected number that is already in
  the result set. Its output can therefore depend on the order in which the
  set is visited (`VisitOrderMatters`).
- `collect_all_versions` compares versions as strings. A six-digit beta
  version is dropped next to a five-digit retail version that begins with a
  larger digit (`StringComparisonDropsLongerVersion`). On versions of equal
  length the string and integer comparisons agree
  (`ThresholdsAgreeOnEqualLength`).
- A file that the suffix pattern does not match is updated three times.
  Each pass that changes it appends its path to `modified_files` again.

## Model

| member | source | states |
|---|---|---|
| Catalog.DirectivePatternExamples | tests/test_constants.py:22-31 | the base directive pattern matches `## Interface: 110000` and not `## Title: My Addon` |
| Catalog.MatchesDirective | toc_interface_updater/constants.py:28-33 | defines the match of `^(directive).*$` under MULTILINE on one line: the line begins with the literal directive |
| Catalog.DirectivesPrefixFree | toc_interface_updater/constants.py:26 | no directive of `ALL_DIRECTIVES` is a prefix of another |
| Catalog.LineMatchesAtMostOneDirective | toc_interface_updater/constants.py:26-33 | a line matches the `^(directive).*$` pattern of at most one listed directive |
| Catalog.CurrentClassicIsMists | toc_interface_updater/constants.py:15-23 | the current classic directive is the Mists directive `## Interface-Mists:` (and the current classic suffix is `Mists`) |
| Catalog.SuffixTableKeys | toc_interface_updater/constants.py:62-70 | the suffix-to-product table has exactly the listed suffixes as keys |
| Catalog.MatchesSuffixPattern | toc_interface_updater/constants.py:72-76 | defines the search of the suffix pattern: the path ends with `-` or `_`, a listed token and `.toc`, where `$` also matches just before a final newline |
| Catalog.ProductForSuffix | toc_interface_updater/constants.py:79-81 | Classic and Mists map to wow_classic, Vanilla to wow_classic_era, and every other suffix, unknown ones included, to wow |
| Catalog.SuffixPatternAccepts | tests/test_constants.py:52-60 | the suffix pattern matches `MyAddon-Classic.toc`, `MyAddon_Vanilla.toc`, `MyAddon-Mainline.toc` and `MyAddon_Mists.toc` |
| Catalog.SuffixPatternRefuses | tests/test_constants.py:62-65 | the suffix pattern does not match `MyAddon.toc`, `MyAddon-Unknown.toc` or `MyAddon-Classic.lua` |
| Catalog.SuffixMatchShape | toc_interface_updater/constants.py:72-76 | a suffix match ends with `-` or `_`, the token and `.toc`, with the separator and the token's first character at fixed places |
| Catalog.RefusesWithoutTocEnding | toc_interface_updater/constants.py:72-76 | a path that ends in neither `c` nor a newline matches no suffix |
| VersionClient.ParseVersion | toc_interface_updater/version_client.py:23-35 | the scan over the response lines stops at the first `us` row, takes its sixth column and formats it; the result is `ParseVersionBody(body)` |
| VersionClient.FormatVersionOfBuild | toc_interface_updater/version_client.py:28-35 | `major.minor.patch.build` becomes `major` followed by `minor` and `patch` zero-padded to two digits |
| VersionClient.FormatVersion | toc_interface_updater/version_client.py:28-35 | defines the formatting of a version field: the build after the last dot is dropped, and the rest must split into exactly three parts, `major` followed by `minor` and `patch` padded to two digits, else `ValueError` |
| VersionClient.FormatRetailVersion | toc_interface_updater/version_client.py:28-35 | `11.0.7.58238` formats as `110007` |
| VersionClient.FormatEraVersion | toc_interface_updater/version_client.py:28-35 | `1.15.5.57638` formats as `11505` |
| VersionClient.FormatVersionWithoutBuild | toc_interface_updater/version_client.py:28-30 | a version without a build number loses its patch to `rsplit` and raises ValueError when unpacked into three parts |
| VersionClient.FormattedVersionValue | toc_interface_updater/version_client.py:31-35 | with one- or two-digit minor and patch numbers, the formatted version is the integer major·10000 + minor·100 + patch |
| VersionClient.NoUsRowRaises | toc_interface_updater/version_client.py:23-30 | a response without a `us` row leaves the version empty, and unpacking it raises ValueError |
| VersionClient.ProductVersion | toc_interface_updater/version_client.py:8-37 | answers from the cache when it can, otherwise fetches and parses; a failed request answers `00000`, which is not cached; the new cache is `Stored(old)`, and every product is answered as before |
| VersionClient.StoredKeepsAnswers | toc_interface_updater/version_client.py:10-36 | a call never changes the answer for any product |
| VersionClient.StoredExtends | toc_interface_updater/version_client.py:36 | the cache only grows, keeps its entries, and gains at most the product asked for |
| VersionClient.StoredExactlyParsed | toc_interface_updater/version_client.py:15-36 | an uncached product is stored exactly when its request succeeds and parses |
| VersionClient.Lookup | toc_interface_updater/version_client.py:8-37 | defines the answer of `product_version`: the cached value, else the parsed response, else `00000` for a failed request |
| VersionClient.Stored | toc_interface_updater/version_client.py:10-36 | defines the cache after one call: the parsed version is added for an uncached product whose request succeeds and parses; otherwise the cache is unchanged |
| VersionClient.ParseVersionBody | toc_interface_updater/version_client.py:23-35 | defines the version read from a response: the sixth column of the first `us` row, formatted, or ValueError |
| VersionClient.StoredAllSnoc | toc_interface_updater/version_client.py:10-36 | asking for one more product is one more call |
| VersionClient.StoredAllAppend | toc_interface_updater/version_client.py:10-36 | asking for `a` and then for `b` is asking for `a + b` |
| VersionClient.StoredAllCons | toc_interface_updater/version_client.py:10-36 | asking for `p` and then for the rest is asking for `[p] + rest` |
| VersionClient.StoredAllCaches | toc_interface_updater/version_client.py:10-36 | after a series of calls, a product is cached exactly when it was cached before, or was asked for and its response parsed; old entries keep their values and every answer stays the same |
| VersionResolver.BetaProducts | dist/toc_interface_updater/version_resolver.py:10-16 | the beta products are exactly the flavor's beta product other than the classic era beta, so at most one |
| VersionResolver.TestProducts | dist/toc_interface_updater/version_resolver.py:19-27 | the test products are exactly the flavor's test products, without repetition |
| VersionResolver.Candidates | dist/toc_interface_updater/version_resolver.py:166-178 | the products asked for after the base are the beta products when `beta` is set and the test products when `test` is set, all of the same flavor |
| VersionResolver.FirstCommaBaseLine | dist/toc_interface_updater/version_resolver.py:38-47 | the line found is a base line with a comma after the directive |
| VersionResolver.FirstCommaBaseLineIsFirst | dist/toc_interface_updater/version_resolver.py:38-47 | it is the first such line, and none is found exactly when there is none |
| VersionResolver.DeclaredValues | dist/toc_interface_updater/version_resolver.py:46-52 | `split(":")[1].strip().split(",")` yields at least one value |
| VersionResolver.DeclaredValuesLackCommas | dist/toc_interface_updater/version_resolver.py:46-52 | no declared value holds a comma |
| VersionResolver.DetectFacts | dist/toc_interface_updater/version_resolver.py:30-103 | the single-line flag is set exactly for a comma base line outside multi mode; otherwise the versions are non-empty and stripped, and retail declares none |
| VersionResolver.StrippedValuesTrimmed | dist/toc_interface_updater/version_resolver.py:100-103 | each value kept is non-empty and is its own strip |
| VersionResolver.RetailMultiDetectsNothing | tests/test_version_resolver.py:54-61 | in multi mode a retail text, even one with a comma base line, declares no versions and does not set the flag |
| VersionResolver.DetectOneDeclared | dist/toc_interface_updater/version_resolver.py:56-103 | a classic or classic era text whose first line is its flavor directive with one value declares exactly that value |
| VersionResolver.DetectBothClassic | dist/toc_interface_updater/version_resolver.py:57-85 | Mists and Classic lines with one value each declare both values for classic |
| VersionResolver.DetectWithoutBaseLine | dist/toc_interface_updater/version_resolver.py:38-56 | without a base directive line `multi` makes no difference, and a retail text declares nothing |
| VersionResolver.CommaLineMatches | dist/toc_interface_updater/version_resolver.py:38-41 | `## Interface: a, b` matches the single-line pattern |
| VersionResolver.CommaLineValues | dist/toc_interface_updater/version_resolver.py:46-53 | the stripped values of `## Interface: a, b` are `a` and `b` |
| VersionResolver.DetectCommaLine | dist/toc_interface_updater/version_resolver.py:38-53 | outside multi mode, a first line `## Interface: a, b` declares `{a, b}` and sets the flag, whatever the flavor |
| VersionResolver.FlavorOfMajor | dist/toc_interface_updater/version_resolver.py:118-140 | major 1 is classic era, any other major below 11 is classic, and 11 and above is retail |
| VersionResolver.Detect | dist/toc_interface_updater/version_resolver.py:30-103 | defines `detect_existing_versions`: the stripped values of the first comma base line outside multi mode (flag set); otherwise the non-empty stripped values of the flavor's own first directive lines |
| VersionResolver.IsCommaBaseLine | dist/toc_interface_updater/version_resolver.py:38-41 | defines a line the single-line pattern `^(## Interface:).*\,.*$` matches: it begins with the base directive and has a comma after it |
| VersionResolver.FirstDeclared | dist/toc_interface_updater/version_resolver.py:60-98 | defines `pattern.search(content).group(0).split(":")[1].strip().split(",")` for one directive: the values of the first line beginning with it, or none when no line does |
| VersionResolver.AllVersions | dist/toc_interface_updater/version_resolver.py:157-180 | defines `collect_all_versions`: the flavor's version plus each beta and test version greater as a string, or the first exception |
| VersionResolver.ExpandDetected | dist/toc_interface_updater/version_resolver.py:115-152 | defines one loop body of `get_versions_from_detected`: skip a number already present, else add the version of the flavor its major number picks and the candidates numerically above it |
| VersionResolver.FromDetected | dist/toc_interface_updater/version_resolver.py:106-154 | defines `get_versions_from_detected` for one visiting order: the loop body folded over the order, stopping at the first exception |
| VersionResolver.AddIfNewer | dist/toc_interface_updater/version_resolver.py:168-171 | asks the cache for one product and adds its version when it passes the threshold; an earlier error propagates without asking; this is one step of `AddNewer`, and the cache gains that product's answer as `Stored` says |
| VersionResolver.AddNewer | dist/toc_interface_updater/version_resolver.py:167-178 | defines the loop over beta or test products: `versions` after asking, in order, for each candidate and adding its version when it passes the threshold |
| VersionResolver.AskNext | dist/toc_interface_updater/version_resolver.py:168-178 | asking for one more candidate extends the fold `AddNewer` by that candidate, and the cache is `StoredAll` over the candidates the fold has asked for |
| VersionResolver.AskWhen | dist/toc_interface_updater/version_resolver.py:128-139 | under `if flag:`, one more candidate is asked for exactly when the flag is set, with result and cache as for `AskNext` |
| VersionResolver.AddAllNewer | dist/toc_interface_updater/version_resolver.py:167-178 | the loop over beta or test products computes the fold `AddNewer` over them, and the cache is `StoredAll` over the products the fold asked for |
| VersionResolver.AddCandidates | dist/toc_interface_updater/version_resolver.py:166-178 | the beta loop when `beta` is set and then the test loop when `test` is set compute the fold over `Candidates`; the cache is `StoredAll` over `AddNewerAsks` |
| VersionResolver.CollectAllVersions | dist/toc_interface_updater/version_resolver.py:157-180 | the result is `AllVersions` of the cache as it was; the new cache is the old one after asking, in order, for the products `AllVersionsAsks` lists, and it answers as before |
| VersionResolver.ExpandEra | dist/toc_interface_updater/version_resolver.py:118-125 | adds the classic era version, then the era PTR version when it is numerically above the detected number; the cache is `StoredAll` over `WithFlavorAsks` |
| VersionResolver.WithFlavor | dist/toc_interface_updater/version_resolver.py:118-152 | defines each flavor branch: `versions` with the flavor's own version added, then each of its beta and test versions that passes the threshold |
| VersionResolver.ExpandClassic | dist/toc_interface_updater/version_resolver.py:126-139 | adds the classic version, then the classic beta and PTR versions that are numerically above the detected number; the cache is `StoredAll` over `WithFlavorAsks` |
| VersionResolver.AskClassicCandidates | dist/toc_interface_updater/version_resolver.py:128-139 | asks for the classic beta when `beta` is set and then the classic PTR when `test` is set: the fold over the classic candidates, with the cache `StoredAll` over what it asked |
| VersionResolver.ExpandRetail | dist/toc_interface_updater/version_resolver.py:140-152 | adds the retail version, then the beta, wowt and wowxptr versions that are numerically above the detected number; the cache is `StoredAll` over `WithFlavorAsks` |
| VersionResolver.AskRetailCandidates | dist/toc_interface_updater/version_resolver.py:141-152 | asks for the retail beta when `beta` is set and then both test products when `test` is set: the fold over the retail candidates, with the cache `StoredAll` over what it asked |
| VersionResolver.AskRetailTests | dist/toc_interface_updater/version_resolver.py:146-152 | under `if test:`, asks for wowt and then wowxptr: two more steps of the fold, and of the cache |
| VersionResolver.ExpandOne | dist/toc_interface_updater/version_resolver.py:115-152 | one loop body is `ExpandDetected`: skip a number already present, else pick the flavor by major number and expand; the cache is `StoredAll` over `ExpandAsks` |
| VersionResolver.CompleteOrder | dist/toc_interface_updater/version_resolver.py:114-154 | once an error is raised, the numbers left unvisited complete the order without changing the outcome or the products asked for |
| VersionResolver.GetVersionsFromDetected | dist/toc_interface_updater/version_resolver.py:106-154 | for the order in which the run visited the detected set, which covers every element once, the result is `FromDetected` of the old cache, and the new cache is the old one after asking for the products `FromDetectedAsks` lists |
| VersionResolver.AddNewerAsksSnoc | dist/toc_interface_updater/version_resolver.py:167-178 | one more candidate is asked for exactly when the fold so far has not raised |
| VersionResolver.FromDetectedAsksSnoc | dist/toc_interface_updater/version_resolver.py:114-152 | one more detected number adds what its loop body asks for, unless an error was raised before |
| VersionResolver.AddNewerAsksPrefix | dist/toc_interface_updater/version_resolver.py:167-178 | the fold asks for a prefix of the candidates, in order, and for all of them when it succeeds |
| VersionResolver.AddNewerAsksStop | dist/toc_interface_updater/version_resolver.py:167-178 | when the fold raises, the last candidate it asked for is the first whose step raises |
| VersionResolver.AllVersionsAsksShape | dist/toc_interface_updater/version_resolver.py:157-180 | `collect_all_versions` asks for the flavor first, then a prefix of its candidates, and all of them when it succeeds |
| VersionResolver.CollectPopulatesCache | dist/toc_interface_updater/version_resolver.py:157-180 | after collecting, the flavor is cached unless its request failed or did not parse; on success every candidate is cached in the same way; nothing else is added |
| VersionResolver.AddNewerMembers | dist/toc_interface_updater/version_resolver.py:167-178 | the fold holds the starting versions plus exactly the candidate versions that pass the threshold |
| VersionResolver.AddNewerSucceeds | dist/toc_interface_updater/version_resolver.py:167-178 | the fold succeeds exactly when every candidate's version is available and comparable |
| VersionResolver.AddNewerRaisePrefix | dist/toc_interface_updater/version_resolver.py:167-178 | once the fold raises, asking for further candidates keeps that error |
| VersionResolver.AddNewerSameAnswers | dist/toc_interface_updater/version_resolver.py:167-178 | two caches that answer alike give the same fold and ask for the same products |
| VersionResolver.AddNewerFromService | dist/toc_interface_updater/version_resolver.py:167-178 | the fold adds only versions the service answered |
| VersionResolver.ExpandDetectedSameAnswers | dist/toc_interface_updater/version_resolver.py:115-152 | two caches that answer alike give the same loop body and ask for the same products |
| VersionResolver.FromDetectedSameAnswers | dist/toc_interface_updater/version_resolver.py:106-154 | two caches that answer alike give the same resolution and ask for the same products |
| VersionResolver.AllVersionsMembers | dist/toc_interface_updater/version_resolver.py:157-180 | the collection holds the base version plus exactly the beta and test versions that are greater as strings |
| VersionResolver.AllVersionsSucceeds | dist/toc_interface_updater/version_resolver.py:157-180 | with every version it asks for available, the collection succeeds |
| VersionResolver.StringComparisonDropsLongerVersion | dist/toc_interface_updater/version_resolver.py:170 | with retail `90000` and beta `100000`, the beta is not added, because `"100000" > "90000"` is false for strings |
| VersionResolver.ThresholdsAgreeOnEqualLength | dist/toc_interface_updater/version_resolver.py:124-177 | on digit strings of one length, the integer comparison and the string comparison agree |
| VersionResolver.ShortDetectedRaises | dist/toc_interface_updater/version_resolver.py:116 | a new detected number of at most four characters raises ValueError (`int("")`) |
| VersionResolver.MajorOfDigits | dist/toc_interface_updater/version_resolver.py:116 | the major number of a digit string is the value of all but its last four digits |
| VersionResolver.MajorOf | dist/toc_interface_updater/version_resolver.py:116 | defines `int(d.strip()[:-4])`: the integer value of all but the last four characters, or `ValueError` |
| VersionResolver.MajorExamples | dist/toc_interface_updater/version_resolver.py:116-140 | 110007 is retail, 40401 is classic, and 11503 is classic era |
| VersionResolver.ExpandDetectedGrows | dist/toc_interface_updater/version_resolver.py:114-152 | a step keeps what it had, adds only versions the service answered, and represents the detected number |
| VersionResolver.FromDetectedCovers | dist/toc_interface_updater/version_resolver.py:106-154 | a successful resolution, in any order, holds only service versions and represents every detected number |
| VersionResolver.VisitOrderMatters | dist/toc_interface_updater/version_resolver.py:114-115 | detecting {110200, 110007} with retail 110007 and beta 110100 gives different results for the two visiting orders |
| ContentUpdater.SubDirective | toc_interface_updater/content_updater.py:41-46 | defines one `re.sub` with the `^(directive).*$` pattern in multiline mode: each line beginning with the directive becomes the directive, a space and the value |
| ContentUpdater.UpdateInterfaceContent | toc_interface_updater/content_updater.py:8-48 | defines `update_interface_content`: the substitution applied for each target directive of the flavor and mode |
| ContentUpdater.SubDirectiveLines | toc_interface_updater/content_updater.py:41-46 | the substitution keeps the number of lines, turns each line beginning with the directive into the directive, a space and the value, and keeps every other line |
| ContentUpdater.SubDirectiveWithoutMatch | toc_interface_updater/content_updater.py:41-46 | a text with no matching line is returned unchanged |
| ContentUpdater.SubDirectiveIdempotent | toc_interface_updater/content_updater.py:41-46 | substituting a second time changes nothing |
| ContentUpdater.RewriteLineIdempotent | toc_interface_updater/content_updater.py:41-46 | rewriting one line a second time for the same directive changes nothing |
| ContentUpdater.RewriteLine | toc_interface_updater/content_updater.py:41-46 | defines the effect of `re.sub` on one line: a line the directive pattern matches is replaced whole by the directive, a space and the new value; any other line is kept |
| ContentUpdater.RewriteLinePairSettles | toc_interface_updater/content_updater.py:19-30 | for two directives neither of which begins the other, rewriting a line for both and then again for the first changes nothing |
| ContentUpdater.SubDirectivePairIdempotent | toc_interface_updater/content_updater.py:19-30 | for two directives neither of which begins the other (Mists and Classic), substituting both again after both changes nothing |
| ContentUpdater.Targets | toc_interface_updater/content_updater.py:16-46 | the rewritten directives are listed ones: the base directive outside multi mode or for a single-line file, and none for retail in multi mode |
| ContentUpdater.ClassicLines | toc_interface_updater/content_updater.py:19-30 | Mists lines become Mists and the value, Classic lines become Classic and the value, and other lines are kept |
| ContentUpdater.UpdatedLines | toc_interface_updater/content_updater.py:8-48 | exactly the lines beginning with a target directive are rewritten to that directive and the value; the others and the line count are kept |
| ContentUpdater.UpdateIdempotent | toc_interface_updater/content_updater.py:8-48 | updating an updated text with the same arguments changes nothing |
| ContentUpdater.UpdateWithoutTargets | toc_interface_updater/content_updater.py:8-48 | a text without target lines is returned unchanged |
| ContentUpdater.UpdateTwoLines | toc_interface_updater/content_updater.py:41-46 | of two lines where only the first may start with the base directive, only the first is rewritten |
| ContentUpdater.UpdateSingleLineExample | tests/test_content_updater.py:10-15 | `## Interface: 100000` becomes `## Interface: 110000` and the title line is kept |
| ContentUpdater.UpdateWithoutInterfaceExample | tests/test_content_updater.py:46-51 | a text without an interface line is returned unchanged |
| DistContentUpdater.UpdateInterfaceContent | dist/toc_interface_updater/content_updater.py:9-52 | defines the packaged `update_interface_content`, whose patterns come from the catalog |
| DistContentUpdater.SameAsPackage | dist/toc_interface_updater/content_updater.py:9-52 | the packaged copy, built from the catalog's patterns, rewrites every text as the package's own copy does |
| FileProcessor.WriteFileIfChanged | toc_interface_updater/file_processor.py:20-41 | a changed text is written (its newlines replaced by `\n`, which leaves it as it is) and its path is appended; an unchanged one touches nothing |
| FileProcessor.ProductForFile | toc_interface_updater/file_processor.py:44-63 | an unmatched path keeps the default flavor; a matched one goes to Mainline, then Classic or Mists, then Vanilla, by the first token found anywhere in the path; the multi flag is always off |
| FileProcessor.ProductForFileAgreesWithTable | toc_interface_updater/file_processor.py:55-61 | a path containing only the suffix token it ends with is classified as the suffix table says |
| FileProcessor.JoinPath | toc_interface_updater/file_processor.py:80 | defines `os.path.join(root, file)` as Python defines it: an absolute name replaces the root; otherwise the root, a `/` unless the root is empty or already ends with one, and the name |
| FileProcessor.DirectoryNameDecides | toc_interface_updater/file_processor.py:56-57 | `./MainlineTools/Addon-Classic.toc` is classified as retail because its directory name contains `Mainline` |
| FileProcessor.PassesFor | toc_interface_updater/file_processor.py:76-110 | a name without `.toc` gets no pass; an unmatched path gets the default flavor, then classic and classic era in multi mode; a matched one gets one single-directive pass |
| Update.Normalize | toc_interface_updater/update.py:41-43 | the normalised text holds no carriage return |
| Update.NormalizeKeepsNormal | toc_interface_updater/update.py:41-43 | a text without carriage returns is left as it is |
| Update.NormalizeIdempotent | toc_interface_updater/update.py:41-43 | normalising twice is normalising once |
| Update.NormalizeCrLfText | toc_interface_updater/update.py:41-43 | a text with CR LF endings normalises to the same text with LF endings |
| Update.KeyAll | toc_interface_updater/update.py:47 | each version is keyed by `int(v)`; keying fails with ValueError exactly when some `int()` fails |
| Update.InsertPermutes | toc_interface_updater/update.py:47 | inserting adds the element to the multiset |
| Update.InsertKeepsSorted | toc_interface_updater/update.py:47 | inserting into a sorted sequence keeps it sorted |
| Update.SortKeyed | toc_interface_updater/update.py:47 | `sorted` returns a permutation in ascending key order |
| Update.SortKeyedVersions | toc_interface_updater/update.py:47 | sorting rearranges the versions |
| Update.WithKeyAppend | toc_interface_updater/update.py:47 | the elements with one key of a concatenation are those of each part, in order |
| Update.InsertWithKey | toc_interface_updater/update.py:47 | inserting into a sorted list puts the element after every element with its key |
| Update.NoneWithSmallerKey | toc_interface_updater/update.py:47 | a sorted list whose first key exceeds `k` has no element with key `k` |
| Update.SortKeyedStable | toc_interface_updater/update.py:47 | `sorted` is stable: for every key, the elements with that key come out in the order they went in |
| Update.SortedVersionsAscend | toc_interface_updater/update.py:47 | sorted versions are a permutation of the versions, in ascending integer order |
| Update.SortedInterfaceMeaning | toc_interface_updater/update.py:47 | the interface value is the versions in ascending integer order, joined by `, `; it raises ValueError exactly when some version is not an integer |
| Update.SortVersions | toc_interface_updater/update.py:47 | for the order in which the set was iterated, the result is `SortedInterface(order)` |
| Update.SortedInterfaceExample | toc_interface_updater/update.py:47 | `{100000, 90000}` sorts by integer value to `90000, 100000` |
| Update.SortedInterface | toc_interface_updater/update.py:47 | defines `", ".join(sorted(versions, key=int))` for one iteration order of the set |
| Update.Interface | toc_interface_updater/update.py:45-59 | defines the interface value: the collected versions, sorted; then, when the text declares versions, the versions resolved from them, sorted; or the first exception |
| Update.UpdatedText | toc_interface_updater/update.py:24-64 | defines the text `update_versions` writes: the directives of the text rewritten with the interface value |
| Update.CollectInterface | toc_interface_updater/update.py:46-47 | the collected versions, sorted and joined, from the cache as it was; the new cache is the old one after asking for the products `AllVersionsAsks` lists |
| Update.ResolveDetected | toc_interface_updater/update.py:55-59 | the versions resolved from the detected set, sorted and joined; the new cache is the old one after asking for the products `FromDetectedAsks` lists |
| Update.Reresolve | toc_interface_updater/update.py:51-59 | the collected value stands, and the cache is untouched, when nothing is detected; otherwise the detected versions are resolved |
| Update.ResolveInterface | toc_interface_updater/update.py:45-59 | the interface value is `Interface(text, old cache)` for the orders the run took; the new cache is the old one after asking for the products `InterfaceAsks` lists |
| Update.UpdateCachesFlavor | toc_interface_updater/update.py:46 | collection always comes first and asks for the file's own flavor first; afterwards that flavor is cached unless its request failed or did not parse, and no product that was not asked for is cached |
| Update.SortedFromService | toc_interface_updater/update.py:47 | sorting service versions lists service versions, in ascending order |
| Update.AllVersionsFromService | dist/toc_interface_updater/version_resolver.py:157-180 | every collected version is one the service answered |
| Update.InterfaceFromService | toc_interface_updater/update.py:45-59 | whatever the orders, the value written lists only service versions, in ascending order |
| Update.ServiceFailureAborts | toc_interface_updater/update.py:46 | a version that cannot be parsed for the file's own flavor raises before the file is rewritten |
| Update.RetailUsesCollected | toc_interface_updater/update.py:51-59 | a retail file without a comma base line (or in multi mode) gets the collected versions |
| Update.UnchangedWithoutDirectives | toc_interface_updater/update.py:61-64 | a text without any interface directive is never rewritten |
| Update.AllVersionsSameAnswers | dist/toc_interface_updater/version_resolver.py:157-180 | two caches that answer alike collect the same versions |
| Update.UpdatedTextSameAnswers | toc_interface_updater/update.py:24-69 | two caches that answer alike make the same run of `update_versions` |
| Update.InterfaceSameAnswers | toc_interface_updater/update.py:45-59 | two caches that answer alike give the same interface value |
| Update.UpdateVersions | toc_interface_updater/update.py:24-69 | a missing file raises FileNotFoundError and touches nothing; otherwise an error leaves the file and list alone, an unchanged text is not written, a changed one is written and recorded, and the new cache is the old one after asking for the products `InterfaceAsks` lists |
| Processing.Step | toc_interface_updater/update.py:24-69 | defines one `update_versions` call on the files and the list of written paths: a missing file or an exception stops the run; otherwise a changed text is written and its path recorded |
| Processing.Schedule | toc_interface_updater/file_processor.py:75-110 | defines the calls `process_files` makes, in walk order: for each walked file, the passes its name and path call for |
| Processing.Runs | toc_interface_updater/file_processor.py:75-110 | defines a sequence of calls made in turn, stopping at the first exception |
| Processing.RunOnce | toc_interface_updater/file_processor.py:107-110 | one `update_versions` call extends the calls made so far by one `Step` |
| Processing.UpdateRun | toc_interface_updater/update.py:24-69 | one call changes the files and the list as `Step` says, raises what it raises, and iterates its version sets, for any cache that answers alike |
| Processing.SchedulePrefix | toc_interface_updater/file_processor.py:75-76 | the calls for the first walked files come first, in walk order |
| Processing.PlanSkips | toc_interface_updater/file_processor.py:77-78 | a name that does not end with `.toc` gets no call |
| Processing.PlanUnmatched | toc_interface_updater/file_processor.py:82-104 | an unmatched path gets three calls: the default flavor single-directive, then classic and classic era multi-directive |
| Processing.PlanMatched | toc_interface_updater/file_processor.py:105-110 | a matched path gets one call, for the flavor its name picks |
| Processing.ProcessEntry | toc_interface_updater/file_processor.py:76-110 | the calls made for one walked file are a prefix of its plan, and all of it unless one raised |
| Processing.ProcessUnmatched | toc_interface_updater/file_processor.py:82-104 | the three calls are made in order, stopping at the first exception |
| Processing.Walk | toc_interface_updater/file_processor.py:75-110 | the loop makes the scheduled calls in order and stops at the first exception; it returns the list of files written |
| Processing.ProcessFiles | toc_interface_updater/file_processor.py:66-112 | `process_files` is the scheduled run of `update_versions` over the walk: it raises the first exception, or returns the paths written, in order |
| Processing.UpdateStepFramed | toc_interface_updater/file_processor.py:20-41 | a call that returns leaves every other file alone, creates no file, and records its own path or nothing |
| Processing.StepFramed | toc_interface_updater/update.py:24-69 | the same for one call |
| Processing.RunsFrame | toc_interface_updater/file_processor.py:75-110 | a run of framed calls writes only their files, creates none, and appends only their paths |
| Processing.RunsForPaths | toc_interface_updater/file_processor.py:77-80 | the calls for a file are at its joined path, and only for a `.toc` name |
| Processing.ScheduleTocFiles | toc_interface_updater/file_processor.py:75-80 | every scheduled call is for a walked `.toc` file |
| Processing.ProcessFilesTouchesOnlyToc | toc_interface_updater/file_processor.py:66-112 | `process_files` changes and records only walked `.toc` files, and creates no file |
| PyStr.FirstWithPrefixIsFirst | toc_interface_updater/version_client.py:24-27 | the row found is the first that starts with the prefix, and none is found exactly when no row does |
| PyStr.SplitLinesHaveNoBreaks | toc_interface_updater/version_client.py:24 | no line that `splitlines()` yields holds a line break |
| PyStr.SplitJoin | toc_interface_updater/content_updater.py:41-46 | splitting a join of separator-free pieces gives the pieces back |
| PyStr.JoinSplit | toc_interface_updater/content_updater.py:41-46 | joining the pieces of a split gives the string back |
| PyStr.StripIdempotent | dist/toc_interface_updater/version_resolver.py:101 | `strip` is idempotent |
| PyStr.StripFixesTrimmed | dist/toc_interface_updater/version_resolver.py:101 | a string without space at either end is its own strip |
| PyStr.ParseIntOfDigits | toc_interface_updater/update.py:47 | `int()` of a non-empty digit string is its decimal value |
| PyStr.ParseIntOfEmpty | dist/toc_interface_updater/version_resolver.py:116 | `int("")` raises ValueError |
| PyStr.StrLessMatchesValueOnEqualLength | dist/toc_interface_updater/version_resolver.py:170 | on digit strings of one length, string order is numeric order |
| PyStr.ZFillOfDigits | toc_interface_updater/version_client.py:32-33 | `zfill` keeps a digit string's digits and value and never truncates |
| PyStr.BeforeLastSplits | toc_interface_updater/version_client.py:28 | `rsplit(".", 1)[0]` is everything before the last dot, or the whole string |
| PyStr.ReplaceCharBySelf | toc_interface_updater/file_processor.py:29-31 | replacing a character by itself (`\n` by `line_ending`) changes nothing |

## Left out

- The HTTP request to the version service (version_client.py:13-21) is not modelled. The `fetch` parameter stands for it, and `None` stands for a `RequestException`. The printed error message is not modelled either.
- Console output is not modelled: every `print`, and the ANSI colour codes in update.py and file_processor.py.
- Reading and writing go to a map from path to text. Encodings, permissions and I/O errors other than a missing file are not modelled.
- `open(file, "r")` uses universal newlines, so the text it returns already holds no CR. `Update.UpdateVersions` applies `Normalize` twice: once for the universal-newline read, and once for the explicit replacement at update.py:41-43, which then changes nothing (`NormalizeIdempotent`). Universal newlines also turn a lone CR into a newline; `Normalize` does the same.
- `os.walk(".")` is not modelled. Its output is a parameter: the list of (directory, name) entries in the order the walk yields them. `os.path.join` is modelled only for the names `os.walk` yields (`FileProcessor.JoinPath`).
- The replacement string of `re.sub` is treated literally. The source passes it as a template, so a backslash in an interface value would be interpreted, but the values the tool builds are digits, commas and spaces.
- `int()` is modelled for ASCII digits, signs, underscores and whitespace. Other Unicode decimal digits are refused, though Python accepts them.
- `InterfaceDirective.get_all_patterns` (constants.py:35-41) is not modelled, because nothing in the core calls it. The same goes for the unused legacy directive and suffix labels, which appear only as constants.
- The command line (cli.py), build_bundle.py and dist/run.py are not part of this model.
- toc_interface_updater/version_resolver.py is not part of this model. Its packaged copy, dist/toc_interface_updater/version_resolver.py, stands in for it.
- The order in which Python iterates a set is not fixed. The model returns it as a ghost out-parameter instead of choosing one.
- Update.UpdateVersions: returns `Ok(true)` or `Ok(false)` (written or not) where the source returns `None`.
- ContentUpdater.SubDirectiveLines: stated only for a directive and an interface value without a newline. The tool never builds a value with one. The same restriction applies to ContentUpdater.SubDirectiveIdempotent, ContentUpdater.SubDirectivePairIdempotent, ContentUpdater.ClassicLines, ContentUpdater.UpdatedLines and ContentUpdater.UpdateIdempotent.
- VersionResolver.DetectOneDeclared: stated for two-line texts whose first line carries the directive. VersionResolver.DetectBothClassic covers the Mists and Classic lines in the first two places. VersionResolver.DetectCommaLine covers a comma line with two values in first place. For other texts, `DetectFacts` states only the single-line flag, that each detected value is non-empty and stripped, and that retail declares none; which values a longer text declares is given by the definition `Detect`, not by a lemma.
- VersionClient.StoredKeepsAnswers: holds because `fetch` is a fixed function. Within a run, each product gets the same response every time it is requested, so a request that fails and later succeeds is not modelled, although that is why the sentinel is not cached (version_client.py:19-21). `SameAnswers` and every contract stated against the cache as it was before a call rest on the same assumption. In particular, Processing.ProcessFiles evaluates every `update_versions` call against the starting cache, so a run where one file is written with `00000` and a later file with the real version is not modelled.
- Processing.ProcessFiles: states the cache after the walk only as answering every product as before; which products each call adds to it is stated per call by `Update.UpdateVersions`. The same holds for Processing.Walk, Processing.ProcessEntry, Processing.ProcessUnmatched, Processing.RunOnce and Processing.UpdateRun.
