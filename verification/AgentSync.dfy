// bin/sync-agent-config applied: writing the plan, removing orphans, checking.
module AgentSync {
  import opened Text
  import opened AgentConfig
  import opened AgentContent
  import opened Wrappers

  const COMMON_AGENTS: Path := COMMON + ["AGENTS.md"]
  const COMMON_CLAUDE: Path := COMMON + ["CLAUDE.md"]
  const RULES_AGENTS: Path := RULES + ["AGENTS.md"]
  const RULES_CLAUDE: Path := RULES + ["CLAUDE.md"]

  predicate Generated(w: Wording, tree: Tree, p: Path) {
    p in tree && Contains(tree[p], w.notice)
  }

  predicate Writable(w: Wording, tree: Tree, p: Path) {
    p !in tree || Generated(w, tree, p) || p == ROOT_CLAUDE
  }

  predicate IsStale(w: Wording, tree: Tree, plan: Plan, p: Path) {
    && Generated(w, tree, p)
    && (|| (|p| == 3 && p == RulePath(p[2]) && EndsWith(p[2], ".md") && p[2] !in plan.expected)
        || (Nested(p, "AGENTS.md") && p !in plan.files))
  }

  function StaleFiles(w: Wording, tree: Tree, plan: Plan): set<Path> {
    set p | p in tree && IsStale(w, tree, plan, p)
  }

  // A run of a plan that refuses no file. (One that does throws half way.)
  function SyncWith(w: Wording, tree: Tree, plan: Plan): Option<Tree> {
    if exists p :: p in plan.files && !Writable(w, tree, p) then None else
      Some((tree + plan.files) - StaleFiles(w, tree + plan.files, plan))
  }

  ghost function Sync(w: Wording, tree: Tree): Option<Tree> {
    var plan := BuildPlan(w, tree);
    if plan.None? then None else SyncWith(w, tree, plan.value)
  }

  // Every file of a plan is there, with its text.
  predicate NoDrift(tree: Tree, files: map<Path, string>) {
    forall p :: p in files ==> p in tree && tree[p] == files[p]
  }

  ghost predicate CheckPasses(w: Wording, tree: Tree) {
    var plan := BuildPlan(w, tree);
    plan.Some? && NoDrift(tree, plan.value.files) && StaleFiles(w, tree, plan.value) == {}
  }

  // A generated AGENTS.md is a source too when it lies in ai/common or ai/rules.
  // This is when a run leaves what it read from there as it was.
  predicate CommonKept(w: Wording, tree: Tree) {
    if COMMON_CLAUDE in tree then
      COMMON_AGENTS in tree && Trim(tree[COMMON_AGENTS]) == Trim(LocalAgents(w, tree[COMMON_CLAUDE]))
    else !Generated(w, tree, COMMON_AGENTS)
  }

  predicate RulesKept(w: Wording, tree: Tree) {
    RULES_CLAUDE !in tree && !Generated(w, tree, RULES_AGENTS)
  }

  predicate SourcesKept(w: Wording, tree: Tree) {
    CommonKept(w, tree) && RulesKept(w, tree)
  }

  // An order the plan's files may be listed in, each at most once.
  predicate ListsOnce(order: seq<Path>, plan: Plan) {
    && (forall i :: 0 <= i < |order| ==> order[i] in plan.files)
    && (forall i, j :: 0 <= i < j < |order| ==> order[i] != order[j])
  }

  predicate Lists(order: seq<Path>, plan: Plan) {
    ListsOnce(order, plan) && forall p :: p in plan.files ==> p in order
  }

  // The first n files of an order, as the plan has them.
  ghost function FirstFiles(plan: Plan, order: seq<Path>, n: nat): map<Path, string>
    requires ListsOnce(order, plan) && n <= |order|
  {
    if n == 0 then map[] else FirstFiles(plan, order, n - 1)[order[n - 1] := plan.files[order[n - 1]]]
  }

  lemma {:induction false} FirstFilesAre(plan: Plan, order: seq<Path>, n: nat, p: Path)
    requires ListsOnce(order, plan) && n <= |order|
    ensures p in FirstFiles(plan, order, n) <==> exists i :: 0 <= i < n && order[i] == p
    ensures p in FirstFiles(plan, order, n) ==> p in plan.files && FirstFiles(plan, order, n)[p] == plan.files[p]
  {
    if n > 0 {
      FirstFilesAre(plan, order, n - 1, p);
    }
  }

  // No file is affected by the ones written before it.
  lemma NextIsAsBefore(w: Wording, before: Tree, plan: Plan, order: seq<Path>, n: nat)
    requires ListsOnce(order, plan) && n < |order|
    ensures Writable(w, before + FirstFiles(plan, order, n), order[n]) <==> Writable(w, before, order[n])
  {
    FirstFilesAre(plan, order, n, order[n]);
  }

  lemma NextWritten(before: Tree, plan: Plan, order: seq<Path>, n: nat)
    requires ListsOnce(order, plan) && n < |order|
    ensures (before + FirstFiles(plan, order, n))[order[n] := plan.files[order[n]]] ==
            before + FirstFiles(plan, order, n + 1)
  {
  }

  lemma AllWritten(plan: Plan, order: seq<Path>)
    requires Lists(order, plan)
    ensures FirstFiles(plan, order, |order|) == plan.files
  {
    forall p ensures p in FirstFiles(plan, order, |order|) <==> p in plan.files {
      FirstFilesAre(plan, order, |order|, p);
    }
    forall p | p in plan.files ensures FirstFiles(plan, order, |order|)[p] == plan.files[p] {
      FirstFilesAre(plan, order, |order|, p);
    }
  }

  // The file tree as a run changes it.
  class Checkout {
    const w: Wording
    var files: Tree

    constructor (w: Wording, files: Tree)
      ensures this.w == w && this.files == files
    {
      this.w := w;
      this.files := files;
    }

    // ensureWritable, then write.
    method WriteFile(p: Path, content: string) returns (ok: bool)
      modifies this
      ensures ok <==> p !in old(files) || Contains(old(files)[p], w.notice) || p == ["CLAUDE.md"]
      ensures ok <==> Writable(w, old(files), p)
      ensures files == if ok then old(files)[p := content] else old(files)
    {
      ok := Writable(w, files, p);
      if ok {
        files := files[p := content];
      }
    }

    // Stops, having written what came before, at the first file refused.
    method WritePlan(plan: Plan, order: seq<Path>) returns (written: nat)
      requires ListsOnce(order, plan)
      modifies this
      ensures written <= |order| && files == old(files) + FirstFiles(plan, order, written)
      ensures forall i :: 0 <= i < written ==> Writable(w, old(files), order[i])
      ensures written < |order| ==> !Writable(w, old(files), order[written])
    {
      ghost var before := files;
      written := 0;
      while written < |order|
        invariant written <= |order| && files == before + FirstFiles(plan, order, written)
        invariant forall i :: 0 <= i < written ==> Writable(w, before, order[i])
      {
        NextIsAsBefore(w, before, plan, order, written);
        var ok := WriteFile(order[written], plan.files[order[written]]);
        if !ok {
          return;
        }
        NextWritten(before, plan, order, written);
        written := written + 1;
      }
    }

    method RemoveStale(plan: Plan)
      modifies this
      ensures files == old(files) - StaleFiles(w, old(files), plan)
    {
      ghost var before := files;
      ghost var all := StaleFiles(w, files, plan);
      var stale := StaleFiles(w, files, plan);
      while stale != {}
        invariant stale <= all
        invariant files == before - (all - stale)
        decreases |stale|
      {
        var p :| p in stale;
        files := files - {p};
        stale := stale - {p};
      }
      assert all - stale == all;
    }

    method Apply(plan: Plan, order: seq<Path>) returns (ok: bool)
      requires Lists(order, plan)
      modifies this
      ensures ok <==> SyncWith(w, old(files), plan).Some?
      ensures ok ==> Some(files) == SyncWith(w, old(files), plan)
    {
      ghost var before := files;
      var written := WritePlan(plan, order);
      ok := written == |order|;
      if ok {
        AllWritten(plan, order);
        RemoveStale(plan);
      }
    }
  }

  // ---- What a plan holds -----------------------------------------------------

  lemma {:induction false} RuleFilesKeys(w: Wording, rules: seq<Rule>, p: Path)
    ensures p in RuleFiles(w, rules) <==> exists i :: 0 <= i < |rules| && p == RulePath(rules[i].fileName)
    ensures p in RuleFiles(w, rules) ==> Contains(RuleFiles(w, rules)[p], w.notice)
  {
    if rules != [] {
      var init, last := rules[..|rules| - 1], rules[|rules| - 1];
      RuleFilesKeys(w, init, p);
      assert forall i :: 0 <= i < |init| ==> rules[i] == init[i];
      if p == RulePath(last.fileName) {
        assert rules[|rules| - 1].fileName == last.fileName;
        MarkedIsGenerated(w, "---\npaths:\n" + PathLines(last.claudePaths) + "---\n",
                          "# " + last.title + "\n\n" + last.body + "\n");
      }
    }
  }

  lemma MarkedIsGenerated(w: Wording, before: string, after: string)
    ensures Contains(Marked(w, before, after), w.notice)
  {
    ContainsMiddle(before, w.notice, "\n\n" + after);
  }

  lemma {:induction false} LoadRulesNames(tree: Tree, names: seq<string>)
    requires LoadRules(tree, names).Some?
    ensures |LoadRules(tree, names).value| == |names|
    ensures forall i :: 0 <= i < |names| ==> LoadRules(tree, names).value[i].fileName == names[i]
  {
    if names != [] {
      LoadRulesNames(tree, names[1..]);
    }
  }

  lemma RulePaths(w: Wording, tree: Tree, p: Path)
    requires Rules(tree).Some?
    ensures p in RuleFiles(w, Rules(tree).value) <==>
              |p| == 3 && p == RulePath(p[2]) && p[2] in MarkdownNames(tree, RULES)
    ensures p in RuleFiles(w, Rules(tree).value) ==> Contains(RuleFiles(w, Rules(tree).value)[p], w.notice)
  {
    var names, rules := Sorted(MarkdownNames(tree, RULES)), Rules(tree).value;
    LoadRulesNames(tree, names);
    RuleFilesKeys(w, rules, p);
    if |p| == 3 && p == RulePath(p[2]) {
      SortedHas(MarkdownNames(tree, RULES), p[2]);
      if p[2] in names {
        var i :| 0 <= i < |names| && names[i] == p[2];
        assert p == RulePath(rules[i].fileName);
      }
    }
    if p in RuleFiles(w, rules) {
      var i :| 0 <= i < |rules| && p == RulePath(rules[i].fileName);
      SortedHas(MarkdownNames(tree, RULES), names[i]);
      assert p[2] == names[i];
    }
  }

  lemma LocalKey(tree: Tree, p: Path)
    ensures p in LocalPaths(tree) <==> Nested(p, "AGENTS.md") && Sibling(p, "CLAUDE.md") in tree
  {
    if Nested(p, "AGENTS.md") && Sibling(p, "CLAUDE.md") in tree {
      var q := Sibling(p, "CLAUDE.md");
      assert Nested(q, "CLAUDE.md") && Sibling(q, "AGENTS.md") == p;
    }
    if p in LocalPaths(tree) {
      var q :| q in tree && Nested(q, "CLAUDE.md") && p == Sibling(q, "AGENTS.md");
      assert Sibling(p, "CLAUDE.md") == q;
    }
  }

  lemma LocalValue(w: Wording, tree: Tree, p: Path)
    requires p in LocalPaths(tree)
    ensures p in LocalFiles(w, tree) && Contains(LocalFiles(w, tree)[p], w.notice)
  {
    LocalKey(tree, p);
    MarkedIsGenerated(w, "", Trim(RewriteIncludes(tree[Sibling(p, "CLAUDE.md")])) + "\n");
  }

  lemma InSum<K, V>(a: map<K, V>, b: map<K, V>, c: map<K, V>, p: K)
    ensures p in a + b + c <==> p in a || p in b || p in c
  {
  }

  lemma PlanIsSum(w: Wording, tree: Tree)
    requires BuildPlan(w, tree).Some?
    ensures Rules(tree).Some?
    ensures BuildPlan(w, tree).value.files ==
            RootFiles(w, CommonSections(tree), Rules(tree).value) + RuleFiles(w, Rules(tree).value)
            + LocalFiles(w, tree)
  {
  }

  lemma PlanKeys(w: Wording, tree: Tree, p: Path)
    requires BuildPlan(w, tree).Some?
    ensures p in BuildPlan(w, tree).value.files <==>
              || p == ROOT_AGENTS || p == ROOT_CLAUDE || p in LocalPaths(tree)
              || (|p| == 3 && p == RulePath(p[2]) && p[2] in MarkdownNames(tree, RULES))
  {
    PlanIsSum(w, tree);
    var rules := Rules(tree).value;
    InSum(RootFiles(w, CommonSections(tree), rules), RuleFiles(w, rules), LocalFiles(w, tree), p);
    RulePaths(w, tree, p);
    LocalKey(tree, p);
  }

  lemma PlannedIsGenerated(w: Wording, tree: Tree, p: Path)
    requires BuildPlan(w, tree).Some? && p in BuildPlan(w, tree).value.files
    ensures Contains(BuildPlan(w, tree).value.files[p], w.notice)
  {
    var sections, rules := CommonSections(tree), Rules(tree).value;
    RulePaths(w, tree, p);
    if p in LocalPaths(tree) { LocalValue(w, tree, p); }
    MarkedIsGenerated(w, "", Join(sections + InlineRules(rules), "\n\n") + "\n");
    MarkedIsGenerated(w, "", Join(sections, "\n\n") + "\n\n" + w.footer + "\n");
  }

  lemma PlannedLocal(w: Wording, tree: Tree, p: Path)
    requires BuildPlan(w, tree).Some? && p in LocalPaths(tree)
    ensures p in BuildPlan(w, tree).value.files && Sibling(p, "CLAUDE.md") in tree
    ensures BuildPlan(w, tree).value.files[p] == LocalAgents(w, tree[Sibling(p, "CLAUDE.md")])
  {
    LocalKey(tree, p);
    LocalValue(w, tree, p);
  }

  lemma PlannedRoot(w: Wording, tree: Tree)
    requires BuildPlan(w, tree).Some?
    ensures ROOT_AGENTS in BuildPlan(w, tree).value.files
    ensures BuildPlan(w, tree).value.files[ROOT_AGENTS] == CodexRoot(w, CommonSections(tree), Rules(tree).value)
  {
    RulePaths(w, tree, ROOT_AGENTS);
    LocalKey(tree, ROOT_AGENTS);
  }

  // ---- What a run leaves behind ----------------------------------------------

  ghost predicate Synced(w: Wording, tree: Tree, tree': Tree) {
    IsComment(w) && Sync(w, tree) == Some(tree')
  }

  lemma AfterSync(w: Wording, tree: Tree, tree': Tree, p: Path)
    requires Synced(w, tree, tree')
    ensures BuildPlan(w, tree).Some?
    ensures var plan := BuildPlan(w, tree).value;
            if p in plan.files then p in tree' && tree'[p] == plan.files[p]
            else (p in tree' <==> p in tree && !IsStale(w, tree, plan, p)) && (p in tree' ==> tree'[p] == tree[p])
  {
    var plan := BuildPlan(w, tree).value;
    PlanKeys(w, tree, p);
    var written := tree + plan.files;
    assert p !in plan.files ==> IsStale(w, written, plan, p) == IsStale(w, tree, plan, p);
    if p in plan.files {
      LocalKey(tree, p);
      assert !IsStale(w, written, plan, p);
    }
  }

  // Outside the root and .claude/, nothing but AGENTS.md files ever changes.
  lemma Untouched(w: Wording, tree: Tree, tree': Tree, p: Path)
    requires Synced(w, tree, tree')
    requires |p| >= 2 && p[0] != ".claude" && p[|p| - 1] != "AGENTS.md"
    ensures (p in tree' <==> p in tree) && (p in tree ==> tree'[p] == tree[p])
  {
    AfterSync(w, tree, tree', p);
    PlanKeys(w, tree, p);
    LocalKey(tree, p);
  }

  predicate Same(tree: Tree, tree': Tree, p: Path) {
    (p in tree' <==> p in tree) && (p in tree ==> tree'[p] == tree[p])
  }

  // An AGENTS.md beside a CLAUDE.md becomes that file's translation; one that
  // is not goes if it was generated.
  predicate Translated(w: Wording, tree: Tree, tree': Tree, a: Path, c: Path) {
    if c in tree then a in tree' && tree'[a] == LocalAgents(w, tree[c]) && Writable(w, tree, a)
    else if Generated(w, tree, a) then a !in tree'
    else Same(tree, tree', a)
  }

  // What a run does to the files it reads its plan from.
  ghost predicate Effect(w: Wording, tree: Tree, tree': Tree) {
    && (forall p :: |p| >= 2 && p[0] != ".claude" && p[|p| - 1] != "AGENTS.md" ==> Same(tree, tree', p))
    && Translated(w, tree, tree', COMMON_AGENTS, COMMON_CLAUDE)
    && Translated(w, tree, tree', RULES_AGENTS, RULES_CLAUDE)
  }

  lemma SourcePaths()
    ensures Nested(COMMON_AGENTS, "AGENTS.md") && Sibling(COMMON_AGENTS, "CLAUDE.md") == COMMON_CLAUDE
    ensures Nested(RULES_AGENTS, "AGENTS.md") && Sibling(RULES_AGENTS, "CLAUDE.md") == RULES_CLAUDE
  {
  }

  lemma AgentsAfterSync(w: Wording, tree: Tree, tree': Tree, a: Path)
    requires Synced(w, tree, tree') && Nested(a, "AGENTS.md")
    ensures Translated(w, tree, tree', a, Sibling(a, "CLAUDE.md"))
  {
    AfterSync(w, tree, tree', a);
    PlanKeys(w, tree, a);
    LocalKey(tree, a);
    if Sibling(a, "CLAUDE.md") in tree {
      PlannedLocal(w, tree, a);
    }
  }

  lemma SyncHasEffect(w: Wording, tree: Tree, tree': Tree)
    requires Synced(w, tree, tree')
    ensures Effect(w, tree, tree')
  {
    forall p | |p| >= 2 && p[0] != ".claude" && p[|p| - 1] != "AGENTS.md" ensures Same(tree, tree', p) {
      Untouched(w, tree, tree', p);
    }
    SourcePaths();
    AgentsAfterSync(w, tree, tree', COMMON_AGENTS);
    AgentsAfterSync(w, tree, tree', RULES_AGENTS);
  }

  lemma ClaudeBeside(q: Path)
    requires Nested(q, "AGENTS.md")
    ensures var p := Sibling(q, "CLAUDE.md"); |p| >= 2 && p[0] != ".claude" && p[|p| - 1] != "AGENTS.md"
  {
    assert ".claude" in IGNORED;
    assert "CLAUDE.md"[0] != "AGENTS.md"[0];
  }

  lemma ClaudeStays(w: Wording, tree: Tree, tree': Tree, q: Path)
    requires Effect(w, tree, tree') && Nested(q, "AGENTS.md")
    ensures Same(tree, tree', Sibling(q, "CLAUDE.md"))
  {
    ClaudeBeside(q);
  }

  lemma LocalAgree(w: Wording, tree: Tree, tree': Tree)
    requires forall q :: Nested(q, "AGENTS.md") ==> Same(tree, tree', Sibling(q, "CLAUDE.md"))
    ensures LocalPaths(tree') == LocalPaths(tree) && LocalFiles(w, tree') == LocalFiles(w, tree)
  {
    forall q ensures q in LocalPaths(tree') <==> q in LocalPaths(tree) {
      LocalKey(tree, q);
      LocalKey(tree', q);
    }
    forall q | q in LocalPaths(tree) ensures Same(tree, tree', Sibling(q, "CLAUDE.md")) {
      LocalKey(tree, q);
    }
  }

  lemma LocalStays(w: Wording, tree: Tree, tree': Tree)
    requires Effect(w, tree, tree')
    ensures LocalPaths(tree') == LocalPaths(tree) && LocalFiles(w, tree') == LocalFiles(w, tree)
  {
    forall q | Nested(q, "AGENTS.md") ensures Same(tree, tree', Sibling(q, "CLAUDE.md")) {
      ClaudeStays(w, tree, tree', q);
    }
    LocalAgree(w, tree, tree');
  }

  lemma {:induction false} SectionsAgree(tree: Tree, tree': Tree, names: seq<string>)
    requires forall n :: n in names ==> Section(tree, n) == Section(tree', n)
    ensures Sections(tree, names) == Sections(tree', names)
  {
    if names != [] {
      SectionsAgree(tree, tree', names[1..]);
    }
  }

  lemma {:induction false} RulesAgree(tree: Tree, tree': Tree, names: seq<string>)
    requires forall n :: n in names ==> RULES + [n] in tree && Same(tree, tree', RULES + [n])
    ensures LoadRules(tree, names) == LoadRules(tree', names)
  {
    if names != [] {
      RulesAgree(tree, tree', names[1..]);
    }
  }

  lemma MarkdownName(tree: Tree, dir: Path, name: string)
    ensures name in MarkdownNames(tree, dir) <==> dir + [name] in tree && EndsWith(name, ".md")
  {
    if dir + [name] in tree && EndsWith(name, ".md") {
      var p := dir + [name];
      assert p[..|dir|] == dir && p[|dir|] == name;
    }
    if name in MarkdownNames(tree, dir) {
      var p :| p in tree && |p| == |dir| + 1 && p[..|dir|] == dir && EndsWith(p[|dir|], ".md") && p[|dir|] == name;
      assert p == dir + [name];
    }
  }

  ghost predicate SameFiles(tree: Tree, tree': Tree, dir: Path) {
    forall n :: Same(tree, tree', dir + [n])
  }

  lemma SameNames(tree: Tree, tree': Tree, dir: Path)
    requires SameFiles(tree, tree', dir)
    ensures MarkdownNames(tree', dir) == MarkdownNames(tree, dir)
  {
    forall n ensures n in MarkdownNames(tree', dir) <==> n in MarkdownNames(tree, dir) {
      assert Same(tree, tree', dir + [n]);
      MarkdownName(tree, dir, n);
      MarkdownName(tree', dir, n);
    }
  }

  lemma SameRules(tree: Tree, tree': Tree)
    requires SameFiles(tree, tree', RULES)
    ensures Rules(tree') == Rules(tree)
  {
    SameNames(tree, tree', RULES);
    var names := MarkdownNames(tree, RULES);
    forall n | n in Sorted(names) ensures RULES + [n] in tree && Same(tree, tree', RULES + [n]) {
      SortedHas(names, n);
      MarkdownName(tree, RULES, n);
    }
    RulesAgree(tree, tree', Sorted(names));
  }

  lemma SourceStays(w: Wording, tree: Tree, tree': Tree, dir: Path, name: string)
    requires Effect(w, tree, tree') && (dir == COMMON || dir == RULES) && name != "AGENTS.md"
    ensures Same(tree, tree', dir + [name])
  {
    var p := dir + [name];
    assert |p| >= 2 && p[0] == "ai" && p[|p| - 1] == name;
  }

  lemma RulesStay(w: Wording, tree: Tree, tree': Tree)
    requires Effect(w, tree, tree') && RulesKept(w, tree)
    ensures SameFiles(tree, tree', RULES)
  {
    forall n ensures Same(tree, tree', RULES + [n]) {
      if n != "AGENTS.md" { SourceStays(w, tree, tree', RULES, n); }
    }
  }

  lemma {:induction false} SectionsAppend(tree: Tree, a: seq<string>, b: seq<string>)
    ensures Sections(tree, a + b) == Sections(tree, a) + Sections(tree, b)
  {
    if a == [] {
      assert a + b == b;
    } else {
      assert (a + b)[1..] == a[1..] + b;
      SectionsAppend(tree, a[1..], b);
    }
  }

  // The sections before and after where AGENTS.md sorts.
  ghost function Before(tree: Tree): seq<string> {
    Sections(tree, Sorted(Lower(MarkdownNames(tree, COMMON), "AGENTS.md")))
  }

  ghost function After(tree: Tree): seq<string> {
    Sections(tree, Sorted(Upper(MarkdownNames(tree, COMMON), "AGENTS.md")))
  }

  lemma SectionsOfOne(tree: Tree, name: string)
    ensures Sections(tree, [name]) == Section(tree, name)
  {
    assert Sections(tree, [name][1..]) == [];
  }

  lemma SectionsOfAgents(tree: Tree)
    ensures Sections(tree, if "AGENTS.md" in MarkdownNames(tree, COMMON) then ["AGENTS.md"] else []) ==
            Section(tree, "AGENTS.md")
  {
    MarkdownName(tree, COMMON, "AGENTS.md");
    SectionsOfOne(tree, "AGENTS.md");
  }

  lemma SectionsOfThree(tree: Tree, lo: seq<string>, mid: seq<string>, hi: seq<string>)
    ensures Sections(tree, lo + mid + hi) == Sections(tree, lo) + Sections(tree, mid) + Sections(tree, hi)
  {
    SectionsAppend(tree, lo + mid, hi);
    SectionsAppend(tree, lo, mid);
  }

  lemma SectionsAround(tree: Tree)
    ensures CommonSections(tree) == Before(tree) + Section(tree, "AGENTS.md") + After(tree)
  {
    var names := MarkdownNames(tree, COMMON);
    var mid := if "AGENTS.md" in names then ["AGENTS.md"] else [];
    SortedAround(names, "AGENTS.md");
    SectionsOfThree(tree, Sorted(Lower(names, "AGENTS.md")), mid, Sorted(Upper(names, "AGENTS.md")));
    SectionsOfAgents(tree);
  }

  lemma OtherNameStays(w: Wording, tree: Tree, tree': Tree, name: string)
    requires Effect(w, tree, tree') && name != "AGENTS.md"
    ensures name in MarkdownNames(tree', COMMON) <==> name in MarkdownNames(tree, COMMON)
  {
    SourceStays(w, tree, tree', COMMON, name);
    MarkdownName(tree, COMMON, name);
    MarkdownName(tree', COMMON, name);
  }

  lemma OtherNamesStay(w: Wording, tree: Tree, tree': Tree)
    requires Effect(w, tree, tree')
    ensures var names, names' := MarkdownNames(tree, COMMON), MarkdownNames(tree', COMMON);
            && Lower(names', "AGENTS.md") == Lower(names, "AGENTS.md")
            && Upper(names', "AGENTS.md") == Upper(names, "AGENTS.md")
  {
    var names, names' := MarkdownNames(tree, COMMON), MarkdownNames(tree', COMMON);
    forall n | n != "AGENTS.md" ensures n in names' <==> n in names {
      OtherNameStays(w, tree, tree', n);
    }
    SidesAgree(names, names', "AGENTS.md");
  }

  lemma TheseSectionsStay(w: Wording, tree: Tree, tree': Tree, names: set<string>)
    requires Effect(w, tree, tree') && "AGENTS.md" !in names
    ensures Sections(tree', Sorted(names)) == Sections(tree, Sorted(names))
  {
    forall n | n in Sorted(names) ensures Section(tree', n) == Section(tree, n) {
      SortedHas(names, n);
      SourceStays(w, tree, tree', COMMON, n);
    }
    SectionsAgree(tree', tree, Sorted(names));
  }

  lemma OtherSectionsStay(w: Wording, tree: Tree, tree': Tree)
    requires Effect(w, tree, tree')
    ensures Before(tree') == Before(tree) && After(tree') == After(tree)
  {
    var names := MarkdownNames(tree, COMMON);
    BelowIsStrict("AGENTS.md", "AGENTS.md");
    OtherNamesStay(w, tree, tree');
    TheseSectionsStay(w, tree, tree', Lower(names, "AGENTS.md"));
    TheseSectionsStay(w, tree, tree', Upper(names, "AGENTS.md"));
  }

  // ---- Fixed points ------------------------------------------------------------

  lemma NoticeIsVisible(w: Wording, s: string)
    requires IsComment(w) && Contains(s, w.notice)
    ensures Trim(s) != ""
  {
    var i :| 0 <= i <= |s| && OccursAt(s, w.notice, i);
    assert s[i] == s[i..i + |w.notice|][0] == '<';
    assert s[i] in s;
    assert !AllSpace(s);
    if Trim(s) == "" {
      TrimBlank(s);
    }
  }

  // The section ai/common/AGENTS.md contributes is the same after the run
  // exactly when the run keeps the common sources.
  lemma AgentsSectionExactly(w: Wording, tree: Tree, tree': Tree)
    requires IsComment(w) && Effect(w, tree, tree')
    ensures Section(tree', "AGENTS.md") == Section(tree, "AGENTS.md") <==> CommonKept(w, tree)
  {
    if COMMON_CLAUDE in tree {
      MarkedIsGenerated(w, "", Trim(RewriteIncludes(tree[COMMON_CLAUDE])) + "\n");
      NoticeIsVisible(w, tree'[COMMON_AGENTS]);
    } else if Generated(w, tree, COMMON_AGENTS) {
      NoticeIsVisible(w, tree[COMMON_AGENTS]);
    }
  }

  lemma CommonStays(w: Wording, tree: Tree, tree': Tree)
    requires IsComment(w) && Effect(w, tree, tree') && CommonKept(w, tree)
    ensures CommonSections(tree') == CommonSections(tree)
  {
    SectionsAround(tree);
    SectionsAround(tree');
    OtherSectionsStay(w, tree, tree');
    AgentsSectionExactly(w, tree, tree');
  }

  lemma SamePlan(w: Wording, tree: Tree, tree': Tree)
    requires Rules(tree') == Rules(tree) && MarkdownNames(tree', RULES) == MarkdownNames(tree, RULES)
    requires CommonSections(tree') == CommonSections(tree) && LocalFiles(w, tree') == LocalFiles(w, tree)
    ensures BuildPlan(w, tree') == BuildPlan(w, tree)
  {
  }

  lemma PlanStays(w: Wording, tree: Tree, tree': Tree)
    requires IsComment(w) && Effect(w, tree, tree') && SourcesKept(w, tree)
    ensures BuildPlan(w, tree') == BuildPlan(w, tree)
  {
    RulesStay(w, tree, tree');
    SameNames(tree, tree', RULES);
    SameRules(tree, tree');
    CommonStays(w, tree, tree');
    LocalStays(w, tree, tree');
    SamePlan(w, tree, tree');
  }

  ghost predicate AsPlanned(w: Wording, tree: Tree, plan: Plan) {
    && (forall p :: p in plan.files ==> p in tree && tree[p] == plan.files[p] && Writable(w, tree, p))
    && StaleFiles(w, tree, plan) == {}
  }

  // Writing a plan again over its own outcome changes nothing.
  lemma WritingAgainIsIdle(w: Wording, tree: Tree, plan: Plan)
    requires AsPlanned(w, tree, plan)
    ensures SyncWith(w, tree, plan) == Some(tree)
  {
    assert tree + plan.files == tree;
    assert tree - StaleFiles(w, tree + plan.files, plan) == tree;
  }

  lemma PlannedStays(w: Wording, tree: Tree, tree': Tree, p: Path)
    requires Synced(w, tree, tree') && BuildPlan(w, tree).Some? && p in BuildPlan(w, tree).value.files
    ensures p in tree' && tree'[p] == BuildPlan(w, tree).value.files[p] && Writable(w, tree', p)
  {
    AfterSync(w, tree, tree', p);
    PlannedIsGenerated(w, tree, p);
  }

  lemma NothingStale(w: Wording, tree: Tree, plan: Plan)
    requires forall p :: p in tree ==> !IsStale(w, tree, plan, p)
    ensures StaleFiles(w, tree, plan) == {}
  {
  }

  lemma OutcomeHasNoStale(w: Wording, tree: Tree, tree': Tree, plan: Plan)
    requires Synced(w, tree, tree') && BuildPlan(w, tree) == Some(plan)
    ensures StaleFiles(w, tree', plan) == {}
  {
    forall p | p in tree' ensures !IsStale(w, tree', plan, p) {
      StaysFresh(w, tree, tree', p);
    }
    NothingStale(w, tree', plan);
  }

  lemma OutcomeIsAsPlanned(w: Wording, tree: Tree, tree': Tree, plan: Plan)
    requires Synced(w, tree, tree') && BuildPlan(w, tree) == Some(plan)
    ensures AsPlanned(w, tree', plan)
  {
    forall p | p in plan.files ensures p in tree' && tree'[p] == plan.files[p] && Writable(w, tree', p) {
      PlannedStays(w, tree, tree', p);
    }
    OutcomeHasNoStale(w, tree, tree', plan);
  }

  lemma StaysFresh(w: Wording, tree: Tree, tree': Tree, p: Path)
    requires Synced(w, tree, tree') && p in tree'
    ensures BuildPlan(w, tree).Some? && !IsStale(w, tree', BuildPlan(w, tree).value, p)
  {
    AfterSync(w, tree, tree', p);
    PlanKeys(w, tree, p);
    LocalKey(tree, p);
  }

  lemma SecondRunIsIdle(w: Wording, tree: Tree, tree': Tree)
    requires Synced(w, tree, tree') && BuildPlan(w, tree') == BuildPlan(w, tree)
    ensures CheckPasses(w, tree') && Sync(w, tree') == Some(tree')
  {
    AfterSync(w, tree, tree', ROOT_AGENTS);
    var plan := BuildPlan(w, tree).value;
    OutcomeIsAsPlanned(w, tree, tree', plan);
    WritingAgainIsIdle(w, tree', plan);
  }

  lemma BadRuleFails(tree: Tree, name: string)
    requires name in MarkdownNames(tree, RULES)
    requires RULES + [name] in tree && EndsWith(name, ".md") && ParseRule(name, tree[RULES + [name]]).None?
    ensures Rules(tree).None?
  {
    var names := Sorted(MarkdownNames(tree, RULES));
    SortedHas(MarkdownNames(tree, RULES), name);
    var i :| 0 <= i < |names| && names[i] == name;
    if LoadRules(tree, names).Some? {
      LoadedFromFiles(tree, names, i);
    }
  }

  // A translated CLAUDE.md is no rule: it opens with the notice, not with
  // frontmatter.
  lemma TranslationIsNoRule(w: Wording, source: string, name: string)
    requires IsComment(w) && EndsWith(name, ".md")
    ensures ParseRule(name, LocalAgents(w, source)).None?
  {
    assert LocalAgents(w, source)[0] == '<';
    assert !StartsWith(LocalAgents(w, source), "---\n");
  }

  lemma TranslationIsRead(w: Wording, tree: Tree, tree': Tree)
    requires Effect(w, tree, tree') && RULES_CLAUDE in tree
    ensures RULES + ["AGENTS.md"] in tree' && tree'[RULES + ["AGENTS.md"]] == LocalAgents(w, tree[RULES_CLAUDE])
    ensures "AGENTS.md" in MarkdownNames(tree', RULES) && EndsWith("AGENTS.md", ".md")
  {
    assert RULES_AGENTS == RULES + ["AGENTS.md"];
    assert "AGENTS.md"[6..] == ".md";
    MarkdownName(tree', RULES, "AGENTS.md");
  }

  lemma TranslatedRuleStopsThePlan(w: Wording, tree: Tree, tree': Tree)
    requires IsComment(w) && Effect(w, tree, tree') && RULES_CLAUDE in tree
    ensures BuildPlan(w, tree').None?
  {
    TranslationIsRead(w, tree, tree');
    TranslationIsNoRule(w, tree[RULES_CLAUDE], "AGENTS.md");
    BadRuleFails(tree', "AGENTS.md");
  }

  lemma OrphanRuleFails(w: Wording, tree: Tree, name: string)
    requires Generated(w, tree, RulePath(name)) && EndsWith(name, ".md") && name !in MarkdownNames(tree, RULES)
    ensures !CheckPasses(w, tree)
  {
    var plan := BuildPlan(w, tree);
    if plan.Some? {
      assert IsStale(w, tree, plan.value, RulePath(name));
      assert RulePath(name) in StaleFiles(w, tree, plan.value);
    }
  }

  lemma RulePathStays(w: Wording, tree: Tree, tree': Tree, name: string)
    requires Synced(w, tree, tree') && name in MarkdownNames(tree, RULES)
    ensures Generated(w, tree', RulePath(name))
  {
    AfterSync(w, tree, tree', RulePath(name));
    PlanKeys(w, tree, RulePath(name));
    PlannedIsGenerated(w, tree, RulePath(name));
  }

  lemma RemovedRuleIsGone(w: Wording, tree: Tree, tree': Tree)
    requires Effect(w, tree, tree') && RULES_CLAUDE !in tree && Generated(w, tree, RULES_AGENTS)
    ensures "AGENTS.md" in MarkdownNames(tree, RULES) && "AGENTS.md" !in MarkdownNames(tree', RULES)
  {
    MarkdownName(tree, RULES, "AGENTS.md");
    MarkdownName(tree', RULES, "AGENTS.md");
  }

  lemma OtherNamesOtherPlan(w: Wording, tree: Tree, tree': Tree)
    requires BuildPlan(w, tree).Some? && MarkdownNames(tree', RULES) != MarkdownNames(tree, RULES)
    ensures BuildPlan(w, tree') != BuildPlan(w, tree)
  {
    assert BuildPlan(w, tree).value.expected == MarkdownNames(tree, RULES);
  }

  lemma RemovedRuleLeavesAnOrphan(w: Wording, tree: Tree, tree': Tree)
    requires Synced(w, tree, tree') && Effect(w, tree, tree')
    requires RULES_CLAUDE !in tree && Generated(w, tree, RULES_AGENTS)
    ensures BuildPlan(w, tree') != BuildPlan(w, tree) && !CheckPasses(w, tree')
  {
    RemovedRuleIsGone(w, tree, tree');
    RulePathStays(w, tree, tree', "AGENTS.md");
    OrphanRuleFails(w, tree', "AGENTS.md");
    AfterSync(w, tree, tree', ROOT_AGENTS);
    OtherNamesOtherPlan(w, tree, tree');
  }

  lemma SectionsTellApart(a: seq<string>, x: seq<string>, y: seq<string>, b: seq<string>)
    requires |x| <= 1 && |y| <= 1 && (x != [] ==> x[0] != "") && (y != [] ==> y[0] != "")
    requires Join(a + x + b, "\n\n") == Join(a + y + b, "\n\n")
    ensures x == y
  {
    assert a + [] + b == a + b;
    if x != [] && y != [] {
      assert x == [x[0]] && y == [y[0]];
      JoinDeterminesMiddle(a, x[0], y[0], b, "\n\n");
    } else if x != [] {
      assert x == [x[0]];
      JoinGrows(a, x[0], b, "\n\n");
    } else if y != [] {
      assert y == [y[0]];
      JoinGrows(a, y[0], b, "\n\n");
    }
  }

  lemma CodexRootTellsSections(w: Wording, a: seq<string>, x: seq<string>, y: seq<string>, b: seq<string>,
                               rules: seq<Rule>)
    requires |x| <= 1 && |y| <= 1 && (x != [] ==> x[0] != "") && (y != [] ==> y[0] != "")
    requires CodexRoot(w, a + x + b, rules) == CodexRoot(w, a + y + b, rules)
    ensures x == y
  {
    var inline := InlineRules(rules);
    var u, v := Join((a + x + b) + inline, "\n\n"), Join((a + y + b) + inline, "\n\n");
    CancelPrefix("" + w.notice, "\n\n" + (u + "\n"), "\n\n" + (v + "\n"));
    CancelPrefix("\n\n", u + "\n", v + "\n");
    CancelSuffix(u, v, "\n");
    assert (a + x + b) + inline == a + x + (b + inline);
    assert (a + y + b) + inline == a + y + (b + inline);
    SectionsTellApart(a, x, y, b + inline);
  }

  lemma RootsDiffer(w: Wording, tree: Tree, tree': Tree, rules: seq<Rule>)
    requires Before(tree') == Before(tree) && After(tree') == After(tree)
    requires Section(tree', "AGENTS.md") != Section(tree, "AGENTS.md")
    ensures CodexRoot(w, CommonSections(tree'), rules) != CodexRoot(w, CommonSections(tree), rules)
  {
    SectionsAround(tree);
    SectionsAround(tree');
    if CodexRoot(w, CommonSections(tree'), rules) == CodexRoot(w, CommonSections(tree), rules) {
      var x, y := Section(tree, "AGENTS.md"), Section(tree', "AGENTS.md");
      CodexRootTellsSections(w, Before(tree), y, x, After(tree), rules);
    }
  }

  // Plans that agree on AGENTS.md agree on what its text tells; the check looks
  // at that file.
  lemma OtherRootDrifts(w: Wording, tree: Tree, tree': Tree)
    requires BuildPlan(w, tree).Some? && Rules(tree') == Rules(tree)
    requires CodexRoot(w, CommonSections(tree'), Rules(tree).value) !=
             CodexRoot(w, CommonSections(tree), Rules(tree).value)
    requires ROOT_AGENTS in BuildPlan(w, tree).value.files
    requires ROOT_AGENTS in tree' && tree'[ROOT_AGENTS] == BuildPlan(w, tree).value.files[ROOT_AGENTS]
    ensures BuildPlan(w, tree') != BuildPlan(w, tree) && !CheckPasses(w, tree')
  {
    PlannedRoot(w, tree);
    PlannedRoot(w, tree');
  }

  lemma ChangedSectionDrifts(w: Wording, tree: Tree, tree': Tree)
    requires Synced(w, tree, tree') && RulesKept(w, tree) && !CommonKept(w, tree)
    ensures BuildPlan(w, tree') != BuildPlan(w, tree) && !CheckPasses(w, tree')
  {
    SyncHasEffect(w, tree, tree');
    RulesStay(w, tree, tree');
    SameRules(tree, tree');
    OtherSectionsStay(w, tree, tree');
    AgentsSectionExactly(w, tree, tree');
    AfterSync(w, tree, tree', ROOT_AGENTS);
    PlannedRoot(w, tree);
    RootsDiffer(w, tree, tree', Rules(tree).value);
    OtherRootDrifts(w, tree, tree');
  }

  // After a successful run the recomputed plan is the applied one exactly when
  // the run kept its own sources.
  lemma PlanIsFixedExactly(w: Wording, tree: Tree, tree': Tree)
    requires Synced(w, tree, tree')
    ensures BuildPlan(w, tree') == BuildPlan(w, tree) <==> SourcesKept(w, tree)
  {
    SyncHasEffect(w, tree, tree');
    AfterSync(w, tree, tree', ROOT_AGENTS);
    if SourcesKept(w, tree) {
      PlanStays(w, tree, tree');
    } else if RulesKept(w, tree) {
      ChangedSectionDrifts(w, tree, tree');
    } else if RULES_CLAUDE in tree {
      TranslatedRuleStopsThePlan(w, tree, tree');
    } else {
      RemovedRuleLeavesAnOrphan(w, tree, tree');
    }
  }

  // And exactly then the check passes; when it does, a second run changes
  // nothing.
  lemma CheckPassesExactly(w: Wording, tree: Tree, tree': Tree)
    requires Synced(w, tree, tree')
    ensures CheckPasses(w, tree') <==> SourcesKept(w, tree)
    ensures SourcesKept(w, tree) ==> Sync(w, tree') == Some(tree')
  {
    SyncHasEffect(w, tree, tree');
    if SourcesKept(w, tree) {
      PlanStays(w, tree, tree');
      SecondRunIsIdle(w, tree, tree');
    } else if RulesKept(w, tree) {
      ChangedSectionDrifts(w, tree, tree');
    } else if RULES_CLAUDE in tree {
      TranslatedRuleStopsThePlan(w, tree, tree');
    } else {
      RemovedRuleLeavesAnOrphan(w, tree, tree');
    }
  }
}
