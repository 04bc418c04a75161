/** Classifying TOC files and recording the ones rewritten
    (toc_interface_updater/file_processor.py). The file system is a map from
    path to text; walking the directory tree is a list of (directory, name)
    entries. */
module FileProcessor {
  import opened PyStr
  import opened Types
  import opened Catalog

  /** The line ending written back: a newline, whatever the file had. */
  const LINE_ENDING: string := "\n"

  /** One run of the per-file pipeline: the product it updates for and
      whether the file keeps one directive per flavor. */
  datatype Pass = Pass(product: FullProduct, multi: bool)

  /** The files on disk, by path. */
  class Disk {
    var files: map<string, string>

    constructor (files: map<string, string>)
      ensures this.files == files
    {
      this.files := files;
    }
  }

  /** The `modified_files` list, grown in place. */
  class ModifiedFiles {
    var paths: seq<string>

    constructor ()
      ensures paths == []
    {
      paths := [];
    }
  }

  /** `write_file_if_changed`: an unchanged text is neither written nor
      recorded; a changed one is written with its newlines replaced by
      `LINE_ENDING`, which leaves it as it is, and its path is appended. */
  method WriteFileIfChanged(path: string, original: string, updated: string, disk: Disk, modified: ModifiedFiles)
    modifies disk, modified
    ensures updated != original ==> disk.files == old(disk.files)[path := updated]
    ensures updated != original ==> modified.paths == old(modified.paths) + [path]
    ensures updated == original ==> disk.files == old(disk.files) && modified.paths == old(modified.paths)
  {
    if updated != original {
      var text := ReplaceChar(updated, '\n', LINE_ENDING);
      ReplaceCharBySelf(updated, '\n');
      disk.files := disk.files[path := text];
      modified.paths := modified.paths + [path];
    }
  }

  /** `get_product_for_file`: an unmatched path keeps the default flavor;
      a matched one is classified by the first suffix token found anywhere
      in the path, in the order Mainline, Classic or Mists, Vanilla. */
  function ProductForFile(path: string, defaultFlavor: FullProduct): (pass: Pass)
    ensures !pass.multi
    ensures !MatchesSuffixPattern(path) ==> pass.product == defaultFlavor
    ensures MatchesSuffixPattern(path) && Contains(path, SUFFIX_MAINLINE) ==> pass.product == Wow
    ensures (MatchesSuffixPattern(path) && !Contains(path, SUFFIX_MAINLINE)
             && (Contains(path, SUFFIX_CLASSIC) || Contains(path, SUFFIX_CURRENT_CLASSIC)))
            ==> pass.product == WowClassic
    ensures (MatchesSuffixPattern(path) && Contains(path, SUFFIX_VANILLA) && !Contains(path, SUFFIX_MAINLINE)
             && !Contains(path, SUFFIX_CLASSIC) && !Contains(path, SUFFIX_CURRENT_CLASSIC))
            ==> pass.product == WowClassicEra
    ensures (MatchesSuffixPattern(path) && !Contains(path, SUFFIX_MAINLINE) && !Contains(path, SUFFIX_CLASSIC)
             && !Contains(path, SUFFIX_CURRENT_CLASSIC) && !Contains(path, SUFFIX_VANILLA))
            ==> pass.product == defaultFlavor
    ensures pass.product == WowClassic && defaultFlavor != WowClassic ==>
      MatchesSuffixPattern(path) &&
      !Contains(path, SUFFIX_MAINLINE) && (Contains(path, SUFFIX_CLASSIC) || Contains(path, SUFFIX_CURRENT_CLASSIC))
    ensures pass.product == WowClassicEra && defaultFlavor != WowClassicEra ==>
      MatchesSuffixPattern(path) && Contains(path, SUFFIX_VANILLA)
      && !Contains(path, SUFFIX_MAINLINE) && !Contains(path, SUFFIX_CLASSIC) && !Contains(path, SUFFIX_CURRENT_CLASSIC)
  {
    if !MatchesSuffixPattern(path) then Pass(defaultFlavor, false)
    else if Contains(path, SUFFIX_MAINLINE) then Pass(Wow, false)
    else if Contains(path, SUFFIX_CLASSIC) || Contains(path, SUFFIX_CURRENT_CLASSIC) then Pass(WowClassic, false)
    else if Contains(path, SUFFIX_VANILLA) then Pass(WowClassicEra, false)
    else Pass(defaultFlavor, false)
  }

  /** A path ending with a suffix contains its token. */
  lemma EndsWithSuffixContains(path: string, suffix: string)
    requires EndsWithSuffix(path, suffix)
    ensures Contains(path, suffix)
  {
    var tail := if EndsWith(path, "-" + suffix + ".toc") then "-" + suffix + ".toc" else "_" + suffix + ".toc";
    var start := |path| - |tail|;
    assert path[start..] == tail;
    assert path[start + 1..start + 1 + |suffix|] == tail[1..1 + |suffix|];
    assert tail[1..1 + |suffix|] == suffix;
    ContainsAt(path, suffix, start + 1);
  }

  /** A path whose only suffix token is the one it ends with is classified
      as the suffix table says. */
  lemma ProductForFileAgreesWithTable(path: string, suffix: string, defaultFlavor: FullProduct)
    requires suffix in ALL_SUFFIXES && EndsWithSuffix(path, suffix)
    requires forall t | t in ALL_SUFFIXES && t != suffix :: !Contains(path, t)
    ensures ProductForFile(path, defaultFlavor).product == ProductForSuffix(suffix)
  {
    EndsWithSuffixContains(path, suffix);
    assert MatchesSuffixPattern(path);
  }

  /** The token is looked for in the whole path, directories included: a
      classic file in a directory named after Mainline is taken for retail. */
  lemma DirectoryNameDecides(defaultFlavor: FullProduct)
    ensures ProductForFile("./MainlineTools/Addon-Classic.toc", defaultFlavor) == Pass(Wow, false)
    ensures ProductForSuffix(SUFFIX_CLASSIC) == WowClassic
  {
    var path := "./MainlineTools/Addon-Classic.toc";
    assert "-" + SUFFIX_CLASSIC + ".toc" == "-Classic.toc";
    assert path[21..] == "-Classic.toc";
    assert EndsWithSuffix(path, SUFFIX_CLASSIC) && SUFFIX_CLASSIC in ALL_SUFFIXES;
    MainlineInDirectory();
  }

  lemma MainlineInDirectory()
    ensures Contains("./MainlineTools/Addon-Classic.toc", SUFFIX_MAINLINE)
  {
    var path := "./MainlineTools/Addon-Classic.toc";
    assert path[2] == 'M' && path[3] == 'a' && path[4] == 'i' && path[5] == 'n';
    assert path[6] == 'l' && path[7] == 'i' && path[8] == 'n' && path[9] == 'e';
    assert path[2..10] == "Mainline";
    ContainsAt(path, SUFFIX_MAINLINE, 2);
  }

  /** `os.path.join(root, name)` for the names `os.walk` yields. */
  function JoinPath(root: string, name: string): string {
    if StartsWith(name, "/") then name
    else if root == "" || EndsWith(root, "/") then root + name
    else root + "/" + name
  }

  /** The passes `process_files` runs for a file: none unless its name ends
      with `.toc`; for a path the suffix pattern does not match, the
      default flavor in single-directive mode and then classic and classic
      era in multi-directive mode; otherwise the one pass its name picks. */
  function PassesFor(name: string, path: string, flavor: FullProduct): (passes: seq<Pass>)
    ensures |passes| == 0 <==> !EndsWith(name, ".toc")
    ensures EndsWith(name, ".toc") && !MatchesSuffixPattern(path) ==>
      passes == [Pass(flavor, false), Pass(WowClassic, true), Pass(WowClassicEra, true)]
    ensures MatchesSuffixPattern(path) && EndsWith(name, ".toc") ==> |passes| == 1 && !passes[0].multi
    ensures forall k | 0 <= k < |passes| :: passes[k].multi ==> !MatchesSuffixPattern(path)
  {
    if !EndsWith(name, ".toc") then []
    else if !MatchesSuffixPattern(path) then [Pass(flavor, false), Pass(WowClassic, true), Pass(WowClassicEra, true)]
    else [ProductForFile(path, flavor)]
  }
}
