// Trees on which a run of bin/sync-agent-config succeeds and the check that
// follows it fails.
module AgentExamples {
  import opened Text
  import opened AgentConfig
  import opened AgentContent
  import opened AgentFrontmatter
  import opened AgentSync
  import opened Wrappers

  lemma ScriptNoticeIsComment()
    ensures IsComment(WORDING)
  {
  }

  // ---- A rule with one path --------------------------------------------------------

  // A rule for the path a.
  function RuleSource(rest: string): string {
    "---\n" + (Join(FrontLines(["a"]), "\n") + (CLOSING + rest))
  }

  lemma RuleSourceText(rest: string)
    ensures RuleSource(rest) == "---\npaths:\n  - \"a\"\n---\n" + rest
  {
    var text := Join(FrontLines(["a"]), "\n");
    FrontJoins(["a"]);
    assert Escaped("a") == "a";
    assert PathLines(["a"]) == "  - \"" + "a" + "\"\n";
    assert text + "\n" == "paths:\n  - \"a\"\n";
    assert "---\n" + (text + "\n") + "---\n" == "---\npaths:\n  - \"a\"\n---\n";
    assert RuleSource(rest) == "---\n" + (text + "\n") + "---\n" + rest;
  }

  lemma EscapedA()
    ensures EscapedAll(["a"]) == ["a"] && !AnySeparated(["a"])
  {
    assert Escaped("a") == "a";
    assert ["a"][1..] == [];
    assert forall c :: c in "a" ==> c == 'a';
  }

  lemma RuleFromPaths(name: string, source: string, rest: string)
    requires EndsWith(name, ".md") && ParseFrontmatter(source) == Some(Parsed(PathData(["a"]), rest))
    ensures ParseRule(name, source).Some?
  {
    var data := PathData(["a"]);
    assert "claudePaths" !in data && "paths" in data;
    assert Truthy(data, "paths") == Some(List(["a"]));
  }

  lemma RuleSourceOpens(rest: string)
    ensures StartsWith(RuleSource(rest), "---\n")
    ensures RuleSource(rest)[4..] == Join(FrontLines(["a"]), "\n") + (CLOSING + rest)
  {
  }

  lemma RuleSourceParses(name: string, rest: string)
    requires EndsWith(name, ".md")
    ensures ParseRule(name, RuleSource(rest)).Some?
  {
    RuleSourceOpens(rest);
    FrontIsUndashed(["a"]);
    ClosingFound(RuleSource(rest), 4, FrontLines(["a"]), rest);
    ParsedInPieces(RuleSource(rest), Join(FrontLines(["a"]), "\n"), rest);
    LinesAreRead(["a"]);
    EscapedA();
    RuleFromPaths(name, RuleSource(rest), rest);
  }

  // ---- Trees of one file -------------------------------------------------------------

  lemma SortedOfOne(name: string)
    ensures Sorted({name}) == [name]
  {
    assert IsLeast(name, {name});
    SortedStep({name}, name);
    assert {name} - {name} == {} && Sorted({}) == [];
  }

  lemma RulesOfOne(p: Path, content: string)
    requires |p| == 3 && EndsWith(p[2], ".md")
    requires p[..2] == RULES ==> ParseRule(p[2], content).Some?
    ensures Rules(map[p := content]).Some?
  {
    var tree := map[p := content];
    if p[..2] == RULES {
      assert p == RULES + [p[2]];
      assert MarkdownNames(tree, RULES) == {p[2]} by {
        MarkdownName(tree, RULES, p[2]);
        assert forall q :: q in tree <==> q == p;
      }
      SortedOfOne(p[2]);
      assert [p[2]][1..] == [];
      assert LoadRules(tree, []) == Some([]);
    } else {
      assert MarkdownNames(tree, RULES) == {};
      assert Sorted({}) == [];
    }
  }

  // Nothing is there that a run would refuse to write over.
  lemma LoneFileSyncs(w: Wording, p: Path, content: string)
    requires |p| == 3 && p[0] == "ai" && EndsWith(p[2], ".md")
    requires p[..2] == RULES ==> ParseRule(p[2], content).Some?
    requires p[2] == "AGENTS.md" || p[2] == "CLAUDE.md"
    ensures Sync(w, map[p := content]).Some?
  {
    var tree := map[p := content];
    RulesOfOne(p, content);
    forall q | q in BuildPlan(w, tree).value.files ensures Writable(w, tree, q) {
      PlanKeys(w, tree, q);
      if q in LocalPaths(tree) {
        LocalIsAgents(tree, q);
      }
    }
  }

  lemma LocalIsAgents(tree: Tree, q: Path)
    requires q in LocalPaths(tree)
    ensures q != [] && q[|q| - 1] == "AGENTS.md"
  {
  }

  // A run succeeds and the check that follows fails.
  ghost predicate Drifts(w: Wording, tree: Tree) {
    Sync(w, tree).Some? && !CheckPasses(w, Sync(w, tree).value)
  }

  lemma UnkeptDrifts(w: Wording, tree: Tree)
    requires IsComment(w) && Sync(w, tree).Some? && !SourcesKept(w, tree)
    ensures Drifts(w, tree)
  {
    CheckPassesExactly(w, tree, Sync(w, tree).value);
  }

  lemma RulesClaudeDrifts(w: Wording)
    requires IsComment(w)
    ensures Drifts(w, map[RULES_CLAUDE := "---\npaths:\n  - \"a\"\n---\nx"])
  {
    RuleSourceText("x");
    assert RuleSource("x") == "---\npaths:\n  - \"a\"\n---\nx";
    RuleSourceParses("CLAUDE.md", "x");
    LoneFileSyncs(w, RULES_CLAUDE, RuleSource("x"));
    UnkeptDrifts(w, map[RULES_CLAUDE := RuleSource("x")]);
  }

  lemma RuleSourceContains(notice: string)
    ensures Contains(RuleSource(notice), notice)
  {
    var text := Join(FrontLines(["a"]), "\n");
    Regroup(text, CLOSING, notice);
    Regroup("---\n", text + CLOSING, notice);
    ContainsMiddle("---\n" + (text + CLOSING), notice, "");
    assert "---\n" + (text + CLOSING) + notice + "" == RuleSource(notice);
  }

  lemma RulesAgentsDrifts(w: Wording)
    requires IsComment(w)
    ensures Drifts(w, map[RULES_AGENTS := "---\npaths:\n  - \"a\"\n---\n" + w.notice])
  {
    var tree := map[RULES_AGENTS := RuleSource(w.notice)];
    RuleSourceText(w.notice);
    RuleSourceParses("AGENTS.md", w.notice);
    LoneFileSyncs(w, RULES_AGENTS, RuleSource(w.notice));
    RuleSourceContains(w.notice);
    assert Generated(w, tree, RULES_AGENTS);
    UnkeptDrifts(w, tree);
  }

  lemma CommonClaudeDrifts(w: Wording)
    requires IsComment(w)
    ensures Drifts(w, map[COMMON_CLAUDE := "x"])
  {
    LoneFileSyncs(w, COMMON_CLAUDE, "x");
    UnkeptDrifts(w, map[COMMON_CLAUDE := "x"]);
  }

  lemma OrphanIsUnkept(w: Wording)
    ensures !CommonKept(w, map[COMMON_AGENTS := w.notice])
  {
    ContainsMiddle("", w.notice, "");
    assert "" + w.notice + "" == w.notice;
    assert COMMON_CLAUDE[2] != COMMON_AGENTS[2];
  }

  lemma CommonAgentsDrifts(w: Wording)
    requires IsComment(w)
    ensures Drifts(w, map[COMMON_AGENTS := w.notice])
  {
    OrphanIsUnkept(w);
    LoneFileSyncs(w, COMMON_AGENTS, w.notice);
    UnkeptDrifts(w, map[COMMON_AGENTS := w.notice]);
  }

  // One tree of one file for each way in which a run does not keep its own
  // sources, under any wording and so under the script's.
  lemma FourTreesThatDrift(w: Wording)
    requires IsComment(w)
    ensures IsComment(WORDING)
    ensures Drifts(w, map[RULES_CLAUDE := "---\npaths:\n  - \"a\"\n---\nx"])
    ensures Drifts(w, map[RULES_AGENTS := "---\npaths:\n  - \"a\"\n---\n" + w.notice])
    ensures Drifts(w, map[COMMON_CLAUDE := "x"])
    ensures Drifts(w, map[COMMON_AGENTS := w.notice])
  {
    ScriptNoticeIsComment();
    RulesClaudeDrifts(w);
    RulesAgentsDrifts(w);
    CommonClaudeDrifts(w);
    CommonAgentsDrifts(w);
  }
}
