/** Rewriting the interface directives in the text of a TOC file
    (toc_interface_updater/content_updater.py). The directive patterns are
    written out there as literals. */
module ContentUpdater {
  import opened PyStr
  import opened Types
  import opened Catalog

  /** One line after substituting the directive's pattern: a line the
      pattern matches is replaced whole by the directive, a space and the
      new interface value. */
  function RewriteLine(line: string, directive: string, interface: string): string {
    if MatchesDirective(line, directive) then directive + " " + interface else line
  }

  /** The lines of a text after the substitution, one for one. */
  function RewriteLines(lines: seq<string>, directive: string, interface: string): seq<string> {
    seq(|lines|, i requires 0 <= i < |lines| => RewriteLine(lines[i], directive, interface))
  }

  /** `re.sub(r"^(directive).*$", directive + " " + interface, content,
      flags=re.MULTILINE)`: with MULTILINE, `^` and `$` hold at every line
      boundary and `.` never crosses a newline, so every line that begins
      with the directive is replaced to its end and the others are kept. */
  function SubDirective(content: string, directive: string, interface: string): string {
    Join(RewriteLines(Split(content, '\n'), directive, interface), "\n")
  }

  /** `update_interface_content`: in multi-line mode the flavor's own
      directives are rewritten (Mists and Classic for classic, Vanilla for
      classic era, none for retail); otherwise the base directive is. */
  function UpdateInterfaceContent(content: string, product: FullProduct, interface: string,
                                  multi: bool, singleLineMulti: bool): string
  {
    if multi && !singleLineMulti then
      match product
      case WowClassic =>
        SubDirective(SubDirective(content, "## Interface-Mists:", interface), "## Interface-Classic:", interface)
      case WowClassicEra => SubDirective(content, "## Interface-Vanilla:", interface)
      case Wow => content
    else
      SubDirective(content, "## Interface:", interface)
  }

  // ---------------------------------------------------------------------------
  // The substitution, line by line

  /** When neither the directive nor the new value holds a newline, the
      lines of the result are the lines of the input, each matching line
      rewritten and every other line unchanged. */
  lemma SubDirectiveLines(content: string, directive: string, interface: string)
    requires '\n' !in directive && '\n' !in interface
    ensures Split(SubDirective(content, directive, interface), '\n') == RewriteLines(Split(content, '\n'), directive, interface)
    ensures |Split(SubDirective(content, directive, interface), '\n')| == |Split(content, '\n')|
    ensures forall i :: 0 <= i < |Split(content, '\n')| ==>
      Split(SubDirective(content, directive, interface), '\n')[i]
        == if MatchesDirective(Split(content, '\n')[i], directive) then directive + " " + interface
           else Split(content, '\n')[i]
  {
    var lines := Split(content, '\n');
    SplitPiecesLackSeparator(content, '\n');
    var rewritten := RewriteLines(lines, directive, interface);
    forall k | 0 <= k < |rewritten| ensures '\n' !in rewritten[k] {
      assert '\n' !in directive + " " + interface;
    }
    SplitJoin(rewritten, '\n');
  }

  /** A text with no line the pattern matches is returned unchanged. */
  lemma SubDirectiveWithoutMatch(content: string, directive: string, interface: string)
    requires forall i :: 0 <= i < |Split(content, '\n')| ==> !MatchesDirective(Split(content, '\n')[i], directive)
    ensures SubDirective(content, directive, interface) == content
  {
    var lines := Split(content, '\n');
    assert RewriteLines(lines, directive, interface) == lines;
    JoinSplit(content, '\n');
  }

  /** Rewriting a line twice is rewriting it once. */
  lemma RewriteLineIdempotent(line: string, directive: string, interface: string)
    ensures RewriteLine(RewriteLine(line, directive, interface), directive, interface)
         == RewriteLine(line, directive, interface)
  {
    assert (directive + " " + interface)[..|directive|] == directive;
  }

  /** Substituting a second time changes nothing. */
  lemma SubDirectiveIdempotent(content: string, directive: string, interface: string)
    requires '\n' !in directive && '\n' !in interface
    ensures SubDirective(SubDirective(content, directive, interface), directive, interface)
         == SubDirective(content, directive, interface)
  {
    var lines := Split(content, '\n');
    var once := RewriteLines(lines, directive, interface);
    SubDirectiveLines(content, directive, interface);
    forall i | 0 <= i < |once|
      ensures RewriteLine(once[i], directive, interface) == once[i]
    {
      RewriteLineIdempotent(lines[i], directive, interface);
    }
    assert RewriteLines(once, directive, interface) == once;
  }

  /** For two directives neither of which begins the other, a line rewritten
      for both is left alone by a second rewrite for the first. */
  lemma RewriteLinePairSettles(line: string, first: string, second: string, interface: string)
    requires !StartsWith(first, second) && !StartsWith(second, first)
    ensures var both := RewriteLine(RewriteLine(line, first, interface), second, interface);
      RewriteLine(both, first, interface) == both
  {
    var once := RewriteLine(line, first, interface);
    var both := RewriteLine(once, second, interface);
    var a, b := first + " " + interface, second + " " + interface;
    assert a[..|first|] == first;
    assert b[..|second|] == second;
    if MatchesDirective(both, first) && both == b {
      if |first| <= |second| {
        PrefixesCompare(both, first, second);
      } else {
        PrefixesCompare(both, second, first);
      }
    }
  }

  /** So substituting for two such directives, in order, is idempotent. */
  lemma SubDirectivePairIdempotent(content: string, first: string, second: string, interface: string)
    requires '\n' !in first && '\n' !in second && '\n' !in interface
    requires !StartsWith(first, second) && !StartsWith(second, first)
    ensures var both := SubDirective(SubDirective(content, first, interface), second, interface);
      SubDirective(SubDirective(both, first, interface), second, interface) == both
  {
    var once := SubDirective(content, first, interface);
    var both := SubDirective(once, second, interface);
    SubDirectiveLines(content, first, interface);
    SubDirectiveLines(once, second, interface);
    var lines := Split(both, '\n');
    forall i | 0 <= i < |lines|
      ensures RewriteLine(lines[i], first, interface) == lines[i]
    {
      RewriteLinePairSettles(Split(content, '\n')[i], first, second, interface);
    }
    assert RewriteLines(lines, first, interface) == lines;
    JoinSplit(both, '\n');
    SubDirectiveIdempotent(once, second, interface);
  }

  // ---------------------------------------------------------------------------
  // update_interface_content

  /** The directives `update_interface_content` rewrites, in order. */
  function Targets(product: FullProduct, multi: bool, singleLineMulti: bool): (targets: seq<string>)
    ensures forall d | d in targets :: d in ALL_DIRECTIVES
    ensures !multi || singleLineMulti ==> targets == [BASE]
    ensures multi && !singleLineMulti && product == Wow ==> targets == []
  {
    if multi && !singleLineMulti then
      match product
      case WowClassic => [CURRENT_CLASSIC, CLASSIC]
      case WowClassicEra => [VANILLA]
      case Wow => []
    else
      [BASE]
  }

  /** Rewriting for Mists, then for Classic: a line beginning with either
      directive becomes that directive and the new value, and every other
      line is kept. */
  lemma ClassicLines(content: string, interface: string)
    requires '\n' !in interface
    ensures var before := Split(content, '\n');
      var after := Split(SubDirective(SubDirective(content, MISTS, interface), CLASSIC, interface), '\n');
      |after| == |before|
      && forall i | 0 <= i < |before| ::
           after[i] == if MatchesDirective(before[i], MISTS) then MISTS + " " + interface
                       else if MatchesDirective(before[i], CLASSIC) then CLASSIC + " " + interface
                       else before[i]
  {
    var once := SubDirective(content, MISTS, interface);
    SubDirectiveLines(content, MISTS, interface);
    SubDirectiveLines(once, CLASSIC, interface);
    var m := MISTS + " " + interface;
    assert m[..|MISTS|] == MISTS;
    if MatchesDirective(m, CLASSIC) {
      LineMatchesAtMostOneDirective(m, 3, 4);
    }
  }

  /** `update_interface_content` rewrites exactly the lines that begin with
      one of its target directives, each to that directive followed by the
      new value, and keeps every other line. */
  lemma UpdatedLines(content: string, product: FullProduct, interface: string, multi: bool, singleLineMulti: bool)
    requires '\n' !in interface
    ensures var before := Split(content, '\n');
      var after := Split(UpdateInterfaceContent(content, product, interface, multi, singleLineMulti), '\n');
      var targets := Targets(product, multi, singleLineMulti);
      |after| == |before|
      && (forall i | 0 <= i < |before| ::
            (forall d | d in targets :: !MatchesDirective(before[i], d)) ==> after[i] == before[i])
      && (forall i, d | 0 <= i < |before| && d in targets && MatchesDirective(before[i], d) ::
            after[i] == d + " " + interface)
  {
    var before := Split(content, '\n');
    if multi && !singleLineMulti && product == WowClassic {
      ClassicLines(content, interface);
      forall i, d | 0 <= i < |before| && d in [MISTS, CLASSIC] && MatchesDirective(before[i], d)
        ensures d == MISTS || !MatchesDirective(before[i], MISTS)
      {
        if d == CLASSIC && MatchesDirective(before[i], MISTS) {
          LineMatchesAtMostOneDirective(before[i], 3, 4);
        }
      }
    } else if multi && !singleLineMulti && product == WowClassicEra {
      SubDirectiveLines(content, VANILLA, interface);
    } else if !multi || singleLineMulti {
      SubDirectiveLines(content, BASE, interface);
    }
  }

  /** Updating an updated text with the same arguments changes nothing. */
  lemma UpdateIdempotent(content: string, product: FullProduct, interface: string, multi: bool, singleLineMulti: bool)
    requires '\n' !in interface
    ensures var once := UpdateInterfaceContent(content, product, interface, multi, singleLineMulti);
      UpdateInterfaceContent(once, product, interface, multi, singleLineMulti) == once
  {
    if multi && !singleLineMulti && product == WowClassic {
      DirectivesPrefixFree(3, 4);
      DirectivesPrefixFree(4, 3);
      SubDirectivePairIdempotent(content, MISTS, CLASSIC, interface);
    } else if multi && !singleLineMulti && product == WowClassicEra {
      SubDirectiveIdempotent(content, VANILLA, interface);
    } else if !multi || singleLineMulti {
      SubDirectiveIdempotent(content, BASE, interface);
    }
  }

  /** A text with no line beginning with a target directive is returned
      unchanged; in particular retail in multi-line mode never changes. */
  lemma UpdateWithoutTargets(content: string, product: FullProduct, interface: string, multi: bool, singleLineMulti: bool)
    requires forall i, d | 0 <= i < |Split(content, '\n')| && d in Targets(product, multi, singleLineMulti) ::
      !MatchesDirective(Split(content, '\n')[i], d)
    ensures UpdateInterfaceContent(content, product, interface, multi, singleLineMulti) == content
  {
    var targets := Targets(product, multi, singleLineMulti);
    forall d | d in targets
      ensures SubDirective(content, d, interface) == content
    {
      SubDirectiveWithoutMatch(content, d, interface);
    }
    if multi && !singleLineMulti && product == WowClassic {
      assert MISTS in targets && CLASSIC in targets;
    } else if multi && !singleLineMulti && product == WowClassicEra {
      assert VANILLA in targets;
    } else if !multi || singleLineMulti {
      assert BASE in targets;
    }
  }

  // ---------------------------------------------------------------------------
  // Examples

  /** The title line does not begin with the base directive. */
  lemma TitleIsNotInterface()
    ensures !MatchesDirective("## Title: Test Addon", BASE)
    ensures !MatchesDirective("## Author: Test", BASE)
  {
    assert "## Title: Test Addon"[..|BASE|][3] != BASE[3];
    assert "## Author: Test"[..|BASE|][3] != BASE[3];
  }

  /** Two lines, of which only the first may begin with the base directive. */
  lemma UpdateTwoLines(first: string, second: string, interface: string)
    requires '\n' !in first && '\n' !in second
    requires !MatchesDirective(second, BASE)
    ensures UpdateInterfaceContent(first + "\n" + second, Wow, interface, false, false)
         == RewriteLine(first, BASE, interface) + "\n" + second
  {
    SplitTwoLines(first, second);
    var a := RewriteLine(first, BASE, interface);
    assert RewriteLines([first, second], BASE, interface) == [a, second];
    assert [a, second][1..] == [second];
    assert Join([a, second], "\n") == a + "\n" + Join([second], "\n");
  }

  /** The interface line of the example, before and after. */
  lemma InterfaceLineRewritten()
    ensures RewriteLine("## Interface: 100000", BASE, "110000") == "## Interface: 110000"
  {
    assert "## Interface: 100000"[..|BASE|] == BASE;
  }

  /** The example text before the update, as two lines. */
  lemma ExampleBeforeLines()
    ensures "## Interface: 100000\n## Title: Test Addon" == "## Interface: 100000" + "\n" + "## Title: Test Addon"
  {
  }

  /** The example text after the update, as two lines. */
  lemma ExampleAfterLines()
    ensures "## Interface: 110000\n## Title: Test Addon" == "## Interface: 110000" + "\n" + "## Title: Test Addon"
  {
  }

  /** The base directive is rewritten in place and the title is kept. */
  lemma UpdateSingleLineExample()
    ensures UpdateInterfaceContent("## Interface: 100000\n## Title: Test Addon", Wow, "110000", false, false)
         == "## Interface: 110000\n## Title: Test Addon"
  {
    TitleIsNotInterface();
    InterfaceLineRewritten();
    ExampleBeforeLines();
    ExampleAfterLines();
    UpdateTwoLines("## Interface: 100000", "## Title: Test Addon", "110000");
  }

  /** A text without an interface line is returned unchanged. */
  lemma UpdateWithoutInterfaceExample()
    ensures UpdateInterfaceContent("## Title: Test Addon\n## Author: Test", Wow, "110000", false, false)
         == "## Title: Test Addon\n## Author: Test"
  {
    TitleIsNotInterface();
    assert "## Title: Test Addon\n## Author: Test" == "## Title: Test Addon" + "\n" + "## Author: Test";
    UpdateTwoLines("## Title: Test Addon", "## Author: Test", "110000");
  }
}
