// What a run of bin/sync-agent-config does to each path, told from the paths and
// the texts in the tree.
module AgentEffects {
  import opened Text
  import opened AgentConfig
  import opened AgentSync
  import opened Wrappers

  predicate IgnoredDir(dir: string) {
    dir == ".git" || dir == ".claude" || dir == "coverage" || dir == "dist" || dir == "node_modules"
  }

  // A rule's place below .claude/rules.
  predicate RulePlace(p: Path) {
    |p| == 3 && p[0] == ".claude" && p[1] == "rules" && EndsWith(p[2], ".md")
  }

  // An AGENTS.md below the root, outside the ignored directories.
  predicate NestedPlace(p: Path) {
    |p| >= 2 && p[|p| - 1] == "AGENTS.md" && !IgnoredDir(p[0])
  }

  // What a run writes: the two roots, a file for each rule source, and an
  // AGENTS.md beside each nested CLAUDE.md.
  predicate Planned(tree: Tree, p: Path) {
    || p == ["AGENTS.md"] || p == ["CLAUDE.md"]
    || (RulePlace(p) && ["ai", "rules", p[2]] in tree)
    || (NestedPlace(p) && p[..|p| - 1] + ["CLAUDE.md"] in tree)
  }

  // What it removes: generated files in such places that it does not write.
  predicate Orphan(w: Wording, tree: Tree, p: Path) {
    (RulePlace(p) || NestedPlace(p)) && !Planned(tree, p) && p in tree && Contains(tree[p], w.notice)
  }

  // What it refuses to write over.
  predicate Refuses(w: Wording, tree: Tree, p: Path) {
    Planned(tree, p) && p in tree && !Contains(tree[p], w.notice) && p != ["CLAUDE.md"]
  }

  lemma PlacesExactly(p: Path)
    ensures NestedPlace(p) <==> Nested(p, "AGENTS.md")
    ensures RulePlace(p) <==> |p| == 3 && p == RulePath(p[2]) && EndsWith(p[2], ".md")
  {
  }

  lemma RuleSourceExactly(tree: Tree, p: Path)
    requires RulePlace(p)
    ensures p[2] in MarkdownNames(tree, RULES) <==> ["ai", "rules", p[2]] in tree
  {
    MarkdownName(tree, RULES, p[2]);
    assert RULES + [p[2]] == ["ai", "rules", p[2]];
  }

  lemma NamesAreMarkdown(tree: Tree, name: string)
    requires name in MarkdownNames(tree, RULES)
    ensures EndsWith(name, ".md")
  {
  }

  // A plan holds exactly these paths.
  lemma PlannedExactly(w: Wording, tree: Tree, p: Path)
    requires BuildPlan(w, tree).Some?
    ensures p in BuildPlan(w, tree).value.files <==> Planned(tree, p)
  {
    PlanKeys(w, tree, p);
    PlacesExactly(p);
    LocalKey(tree, p);
    if RulePlace(p) {
      RuleSourceExactly(tree, p);
    } else if |p| == 3 && p == RulePath(p[2]) && p[2] in MarkdownNames(tree, RULES) {
      NamesAreMarkdown(tree, p[2]);
    }
  }

  lemma StaleExactly(w: Wording, tree: Tree, p: Path)
    requires BuildPlan(w, tree).Some?
    ensures p in tree && IsStale(w, tree, BuildPlan(w, tree).value, p) <==> Orphan(w, tree, p)
  {
    PlannedExactly(w, tree, p);
    PlacesExactly(p);
    if RulePlace(p) {
      RuleSourceExactly(tree, p);
      assert p[0] == ".claude" && !NestedPlace(p);
    }
  }

  // A run with a plan fails exactly when some path is refused.
  lemma RunFailsExactly(w: Wording, tree: Tree)
    requires BuildPlan(w, tree).Some?
    ensures Sync(w, tree).None? <==> exists p :: Refuses(w, tree, p)
  {
    var plan := BuildPlan(w, tree).value;
    if p :| p in plan.files && !Writable(w, tree, p) {
      PlannedExactly(w, tree, p);
      assert Refuses(w, tree, p);
    }
    if p :| Refuses(w, tree, p) {
      PlannedExactly(w, tree, p);
      assert p in plan.files && !Writable(w, tree, p);
    }
  }

  // After a run that succeeds, each planned path has its planned text, each
  // orphan is gone, and every other path is as it was.
  lemma OutcomeExactly(w: Wording, tree: Tree, tree': Tree, p: Path)
    requires Synced(w, tree, tree')
    ensures BuildPlan(w, tree).Some?
    ensures var files := BuildPlan(w, tree).value.files;
            if Planned(tree, p) then p in files && p in tree' && tree'[p] == files[p]
            else if Orphan(w, tree, p) then p !in tree'
            else Same(tree, tree', p)
  {
    AfterSync(w, tree, tree', p);
    PlannedExactly(w, tree, p);
    StaleExactly(w, tree, p);
  }

  ghost predicate AsPlannedAt(w: Wording, tree: Tree, p: Path)
    requires BuildPlan(w, tree).Some?
  {
    var files := BuildPlan(w, tree).value.files;
    p in files && p in tree && tree[p] == files[p]
  }

  ghost predicate AllAsPlanned(w: Wording, tree: Tree)
    requires BuildPlan(w, tree).Some?
  {
    forall p :: Planned(tree, p) ==> AsPlannedAt(w, tree, p)
  }

  ghost predicate NoOrphan(w: Wording, tree: Tree) {
    forall p :: !Orphan(w, tree, p)
  }

  lemma NoneDriftedExactly(w: Wording, tree: Tree, files: map<Path, string>)
    requires BuildPlan(w, tree).Some? && files == BuildPlan(w, tree).value.files
    ensures NoDrift(tree, files) <==> AllAsPlanned(w, tree)
  {
    if NoDrift(tree, files) {
      forall p | Planned(tree, p) ensures AsPlannedAt(w, tree, p) {
        PlannedExactly(w, tree, p);
      }
    }
    if AllAsPlanned(w, tree) {
      forall p | p in files ensures p in tree && tree[p] == files[p] {
        PlannedExactly(w, tree, p);
        assert AsPlannedAt(w, tree, p);
      }
    }
  }

  lemma NoneStaleExactly(w: Wording, tree: Tree, plan: Plan)
    requires BuildPlan(w, tree) == Some(plan)
    ensures StaleFiles(w, tree, plan) == {} <==> NoOrphan(w, tree)
  {
    if StaleFiles(w, tree, plan) == {} {
      forall p ensures !Orphan(w, tree, p) {
        StaleExactly(w, tree, p);
        assert p !in StaleFiles(w, tree, plan);
      }
    } else {
      var p :| p in StaleFiles(w, tree, plan);
      StaleExactly(w, tree, p);
    }
  }

  // The check passes exactly when each planned path has its text already and
  // there is no orphan.
  lemma CheckExactly(w: Wording, tree: Tree)
    requires BuildPlan(w, tree).Some?
    ensures CheckPasses(w, tree) <==> AllAsPlanned(w, tree) && NoOrphan(w, tree)
  {
    var plan := BuildPlan(w, tree).value;
    NoneDriftedExactly(w, tree, plan.files);
    NoneStaleExactly(w, tree, plan);
  }

  // Nothing in the other ignored directories is ever touched.
  lemma IgnoredStays(w: Wording, tree: Tree, tree': Tree, p: Path)
    requires Synced(w, tree, tree') && |p| >= 2 && IgnoredDir(p[0]) && p[0] != ".claude"
    ensures Same(tree, tree', p)
  {
    OutcomeExactly(w, tree, tree', p);
  }
}
