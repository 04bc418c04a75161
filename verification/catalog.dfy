/** The fixed directive labels and filename suffixes (constants.py). */
module Catalog {
  import opened PyStr
  import opened Types

  // ---------------------------------------------------------------------------
  // InterfaceDirective

  /** The base directive, used by retail and by single-line files. */
  const BASE: string := "## Interface:"
  const MAINLINE: string := "## Interface-Mainline:"
  const MISTS: string := "## Interface-Mists:"
  const CATA: string := "## Interface-Cata:"
  const WRATH: string := "## Interface-Wrath:"
  const WOTLK: string := "## Interface-WOTLK:"
  const TBC: string := "## Interface-TBC:"
  const BCC: string := "## Interface-BCC:"
  const VANILLA: string := "## Interface-Vanilla:"
  const CLASSIC: string := "## Interface-Classic:"
  /** The directive of the current classic expansion. */
  const CURRENT_CLASSIC: string := MISTS

  const ALL_DIRECTIVES: seq<string> := [BASE, MAINLINE, VANILLA, CLASSIC, CURRENT_CLASSIC]

  /** The pattern `get_directive_pattern(directive)`, `^(directive).*$` with
      MULTILINE, applied to one line: `.` never crosses a newline, so it
      matches exactly the lines that begin with the literal directive. */
  predicate MatchesDirective(line: string, directive: string) {
    StartsWith(line, directive)
  }

  /** The pattern matches `## Interface: 110000` and not `## Title: My Addon`. */
  lemma DirectivePatternExamples()
    ensures MatchesDirective("## Interface: 110000", BASE)
    ensures !MatchesDirective("## Title: My Addon", BASE)
  {
    assert "## Interface: 110000"[..|BASE|] == BASE;
    assert "## Title: My Addon"[..|BASE|][3] != BASE[3];
  }

  /** No listed directive is a prefix of another: `## Interface:` and the
      `## Interface-…:` labels part at the thirteenth character. */
  lemma DirectivesPrefixFree(i: nat, j: nat)
    requires i < |ALL_DIRECTIVES| && j < |ALL_DIRECTIVES| && i != j
    ensures !StartsWith(ALL_DIRECTIVES[i], ALL_DIRECTIVES[j])
  {
    var a, b := ALL_DIRECTIVES[i], ALL_DIRECTIVES[j];
    if |b| <= |a| {
      if b == BASE {
        assert a[12] == '-' && b[12] == ':';
        assert a[..|b|][12] != b[12];
      } else {
        assert a[13] != b[13] || a[14] != b[14];
        assert a[..|b|][13] != b[13] || a[..|b|][14] != b[14];
      }
    }
  }

  /** So a line matches at most one listed directive. */
  lemma LineMatchesAtMostOneDirective(line: string, i: nat, j: nat)
    requires i < |ALL_DIRECTIVES| && j < |ALL_DIRECTIVES|
    requires MatchesDirective(line, ALL_DIRECTIVES[i]) && MatchesDirective(line, ALL_DIRECTIVES[j])
    ensures i == j
  {
    if i != j {
      var a, b := ALL_DIRECTIVES[i], ALL_DIRECTIVES[j];
      if |a| <= |b| {
        PrefixesCompare(line, a, b);
        DirectivesPrefixFree(j, i);
      } else {
        PrefixesCompare(line, b, a);
        DirectivesPrefixFree(i, j);
      }
    }
  }

  // ---------------------------------------------------------------------------
  // TocSuffix

  const SUFFIX_MAINLINE: string := "Mainline"
  const SUFFIX_STANDARD: string := "Standard"
  const SUFFIX_WOWLABS: string := "WoWLabs"
  const SUFFIX_MISTS: string := "Mists"
  const SUFFIX_CATA: string := "Cata"
  const SUFFIX_WRATH: string := "Wrath"
  const SUFFIX_WOTLK: string := "WOTLK"
  const SUFFIX_TBC: string := "TBC"
  const SUFFIX_BCC: string := "BCC"
  const SUFFIX_VANILLA: string := "Vanilla"
  const SUFFIX_CLASSIC: string := "Classic"
  const SUFFIX_CURRENT_CLASSIC: string := SUFFIX_MISTS

  const ALL_SUFFIXES: seq<string> := [SUFFIX_MAINLINE, SUFFIX_CLASSIC, SUFFIX_CURRENT_CLASSIC, SUFFIX_VANILLA]

  const SUFFIX_TO_PRODUCT: map<string, FullProduct> := map[
    SUFFIX_MAINLINE := Wow,
    SUFFIX_CLASSIC := WowClassic,
    SUFFIX_MISTS := WowClassic,
    SUFFIX_VANILLA := WowClassicEra
  ]

  /** The current classic expansion is Mists, for both directives and suffixes. */
  lemma CurrentClassicIsMists()
    ensures CURRENT_CLASSIC == MISTS == "## Interface-Mists:"
    ensures SUFFIX_CURRENT_CLASSIC == SUFFIX_MISTS == "Mists"
  {
  }

  /** The suffix table has exactly the listed suffixes as keys. */
  lemma SuffixTableKeys()
    ensures SUFFIX_TO_PRODUCT.Keys == set s | s in ALL_SUFFIXES
  {
  }

  /** `get_product_for_suffix(suffix)`: the table entry, or "wow". */
  function ProductForSuffix(suffix: string): (product: FullProduct)
    ensures product == WowClassic <==> suffix == SUFFIX_CLASSIC || suffix == SUFFIX_CURRENT_CLASSIC
    ensures product == WowClassicEra <==> suffix == SUFFIX_VANILLA
    ensures product == Wow <==> suffix !in [SUFFIX_CLASSIC, SUFFIX_CURRENT_CLASSIC, SUFFIX_VANILLA]
  {
    if suffix in SUFFIX_TO_PRODUCT then SUFFIX_TO_PRODUCT[suffix] else Wow
  }

  /** `-` or `_`, the suffix, then `.toc`, at the end of `path`. */
  predicate EndsWithSuffix(path: string, suffix: string) {
    EndsWith(path, "-" + suffix + ".toc") || EndsWith(path, "_" + suffix + ".toc")
  }

  /** `get_pattern().search(path)` for `[-_](Mainline|Classic|Mists|Vanilla)\.toc$`:
      without MULTILINE, `$` matches at the end of the string and also just
      before a newline that ends it. */
  predicate MatchesSuffixPattern(path: string) {
    exists suffix | suffix in ALL_SUFFIXES ::
      EndsWithSuffix(path, suffix)
      || (|path| > 0 && path[|path| - 1] == '\n' && EndsWithSuffix(path[..|path| - 1], suffix))
  }

  /** The filenames the suffix pattern accepts. */
  lemma SuffixPatternAccepts()
    ensures MatchesSuffixPattern("MyAddon-Classic.toc")
    ensures MatchesSuffixPattern("MyAddon_Vanilla.toc")
    ensures MatchesSuffixPattern("MyAddon-Mainline.toc")
    ensures MatchesSuffixPattern("MyAddon_Mists.toc")
  {
    ClassicAccepted();
    VanillaAccepted();
    MainlineAccepted();
    MistsAccepted();
  }

  lemma ClassicAccepted()
    ensures MatchesSuffixPattern("MyAddon-Classic.toc")
  {
    assert "-" + SUFFIX_CLASSIC + ".toc" == "-Classic.toc";
    assert "MyAddon-Classic.toc"[7..] == "-Classic.toc";
    assert EndsWithSuffix("MyAddon-Classic.toc", SUFFIX_CLASSIC);
  }

  lemma VanillaAccepted()
    ensures MatchesSuffixPattern("MyAddon_Vanilla.toc")
  {
    assert "_" + SUFFIX_VANILLA + ".toc" == "_Vanilla.toc";
    assert "MyAddon_Vanilla.toc"[7..] == "_Vanilla.toc";
    assert EndsWithSuffix("MyAddon_Vanilla.toc", SUFFIX_VANILLA);
  }

  lemma MainlineAccepted()
    ensures MatchesSuffixPattern("MyAddon-Mainline.toc")
  {
    assert "-" + SUFFIX_MAINLINE + ".toc" == "-Mainline.toc";
    assert "MyAddon-Mainline.toc"[7..] == "-Mainline.toc";
    assert EndsWithSuffix("MyAddon-Mainline.toc", SUFFIX_MAINLINE);
  }

  lemma MistsAccepted()
    ensures MatchesSuffixPattern("MyAddon_Mists.toc")
  {
    assert "_" + SUFFIX_MISTS + ".toc" == "_Mists.toc";
    assert "MyAddon_Mists.toc"[7..] == "_Mists.toc";
    assert EndsWithSuffix("MyAddon_Mists.toc", SUFFIX_MISTS);
  }

  /** What a suffix match fixes: the separator before the token, the token's
      first character, and the final `c` of `.toc`. */
  lemma SuffixMatchShape(path: string, suffix: string)
    requires |suffix| > 0 && EndsWithSuffix(path, suffix)
    ensures |path| >= |suffix| + 5
    ensures path[|path| - |suffix| - 5] == '-' || path[|path| - |suffix| - 5] == '_'
    ensures path[|path| - |suffix| - 4] == suffix[0]
    ensures path[|path| - 1] == 'c'
  {
    var n := |path|;
    var t := if EndsWith(path, "-" + suffix + ".toc") then "-" + suffix + ".toc" else "_" + suffix + ".toc";
    assert path[n - |t|..] == t;
    assert path[n - |t|] == path[n - |t|..][0];
    assert path[n - |t| + 1] == path[n - |t|..][1];
    assert path[n - 1] == path[n - |t|..][|t| - 1];
  }

  /** A path refuses a suffix when it is too short for it, or when the
      separator position or the token's first character disagree. */
  lemma RefusesSuffix(path: string, suffix: string)
    requires |suffix| > 0
    requires |path| >= |suffix| + 5 ==>
      (path[|path| - |suffix| - 5] != '-' && path[|path| - |suffix| - 5] != '_')
      || path[|path| - |suffix| - 4] != suffix[0]
      || path[|path| - 1] != 'c'
    ensures !EndsWithSuffix(path, suffix)
  {
    if EndsWithSuffix(path, suffix) {
      SuffixMatchShape(path, suffix);
    }
  }

  /** A path ending in neither `c` nor a newline matches no suffix. */
  lemma RefusesWithoutTocEnding(path: string)
    requires |path| > 0 && path[|path| - 1] != 'c' && path[|path| - 1] != '\n'
    ensures !MatchesSuffixPattern(path)
  {
    forall suffix | suffix in ALL_SUFFIXES
      ensures !EndsWithSuffix(path, suffix)
    {
      RefusesSuffix(path, suffix);
    }
  }

  /** The filenames the suffix pattern refuses. */
  lemma SuffixPatternRefuses()
    ensures !MatchesSuffixPattern("MyAddon.toc")
    ensures !MatchesSuffixPattern("MyAddon-Unknown.toc")
    ensures !MatchesSuffixPattern("MyAddon-Classic.lua")
  {
    var a, b := "MyAddon.toc", "MyAddon-Unknown.toc";
    forall suffix | suffix in ALL_SUFFIXES
      ensures !EndsWithSuffix(a, suffix) && !EndsWithSuffix(b, suffix)
    {
      RefusesSuffix(a, suffix);
      RefusesSuffix(b, suffix);
    }
    RefusesWithoutTocEnding("MyAddon-Classic.lua");
  }
}
