// What the files generated by bin/sync-agent-config say: nothing of their
// sources is lost or reordered on the way.
module AgentContent {
  import opened Text
  import opened AgentConfig
  import opened Wrappers

  // ---- Order of appearance -----------------------------------------------------

  // The parts appear in text one after another.
  ghost predicate InOrder(text: string, parts: seq<string>)
    decreases |parts|
  {
    parts == [] || exists i: nat :: OccursAt(text, parts[0], i) && InOrder(text[i + |parts[0]|..], parts[1..])
  }

  lemma AfterMore(pre: string, text: string, parts: seq<string>)
    requires InOrder(text, parts)
    ensures InOrder(pre + text, parts)
  {
    if parts != [] {
      var i: nat :| OccursAt(text, parts[0], i) && InOrder(text[i + |parts[0]|..], parts[1..]);
      var j := |pre| + i;
      assert (pre + text)[j..j + |parts[0]|] == text[i..i + |parts[0]|];
      assert (pre + text)[j + |parts[0]|..] == text[i + |parts[0]|..];
      assert OccursAt(pre + text, parts[0], j);
    }
  }

  lemma Starting(part: string, text: string, parts: seq<string>)
    requires InOrder(text, parts)
    ensures InOrder(part + text, [part] + parts)
  {
    var all := [part] + parts;
    assert all[1..] == parts;
    assert (part + text)[|part|..] == text;
    assert OccursAt(part + text, all[0], 0) && InOrder((part + text)[0 + |all[0]|..], all[1..]);
  }

  lemma RegroupFour(a: string, b: string, c: string, d: string, e: string)
    ensures (((a + b) + c) + d) + e == a + (b + (c + (d + e)))
  {
    Regroup((a + b) + c, d, e);
    Regroup(a + b, c, d + e);
    Regroup(a, b, c + (d + e));
  }

  lemma {:induction false} Joined(parts: seq<string>, sep: string, rest: string, more: seq<string>)
    requires InOrder(rest, more)
    ensures InOrder(Join(parts, sep) + rest, parts + more)
    decreases |parts|
  {
    if parts == [] {
      assert "" + rest == rest && parts + more == more;
    } else {
      var p, tail := parts[0], parts[1..];
      assert [p] + tail == parts;
      Regroup([p], tail, more);
      if tail == [] {
        assert tail + more == more;
        Starting(p, rest, more);
      } else {
        var j := Join(tail, sep);
        Joined(tail, sep, rest, more);
        AfterMore(sep, j + rest, tail + more);
        Starting(p, sep + (j + rest), tail + more);
        Regroup(sep, j, rest);
        Regroup(p, sep, j);
        Regroup(p, sep + j, rest);
      }
    }
  }

  lemma {:induction false} JoinAppend(a: seq<string>, b: seq<string>, sep: string)
    ensures Join(a + b, sep) == Join(a, sep) + (if a == [] || b == [] then "" else sep) + Join(b, sep)
  {
    if a == [] {
      assert a + b == b;
    } else {
      JoinAppend(a[1..], b, sep);
      assert a + b == [a[0]] + (a[1..] + b) && a == [a[0]] + a[1..];
      JoinStep(a[0], a[1..] + b, sep);
      JoinStep(a[0], a[1..], sep);
    }
  }

  // ---- The root files ------------------------------------------------------------

  // The inlined rules are one more section, whose rules are joined as sections are.
  lemma SectionsAndRules(sections: seq<string>, rules: seq<Rule>)
    ensures Join(sections + InlineRules(rules), "\n\n") == Join(sections + RuleTexts(rules), "\n\n")
  {
    JoinAppend(sections, InlineRules(rules), "\n\n");
    JoinAppend(sections, RuleTexts(rules), "\n\n");
    if rules != [] {
      assert InlineRules(rules) == [Join(RuleTexts(rules), "\n\n")];
    }
  }

  lemma CodexRootSays(w: Wording, sections: seq<string>, rules: seq<Rule>)
    ensures InOrder(CodexRoot(w, sections, rules), [w.notice] + (sections + RuleTexts(rules)))
  {
    var parts := sections + RuleTexts(rules);
    SectionsAndRules(sections, rules);
    Joined(parts, "\n\n", "\n", []);
    assert parts + [] == parts;
    AfterMore("\n\n", Join(parts, "\n\n") + "\n", parts);
    Starting(w.notice, "\n\n" + (Join(parts, "\n\n") + "\n"), parts);
    assert "" + w.notice == w.notice;
  }

  lemma ClaudeRootShape(w: Wording, sections: seq<string>)
    ensures ClaudeRoot(w, sections) == w.notice + ("\n\n" + (Join(sections, "\n\n") + ("\n\n" + (w.footer + "\n"))))
  {
    var joined := Join(sections, "\n\n");
    Regroup(joined + "\n\n", w.footer, "\n");
    Regroup(joined, "\n\n", w.footer + "\n");
    assert "" + w.notice == w.notice;
  }

  lemma ClaudeRootSays(w: Wording, sections: seq<string>)
    ensures InOrder(ClaudeRoot(w, sections), [w.notice] + (sections + [w.footer]))
  {
    var tail := "\n\n" + (w.footer + "\n");
    var text := Join(sections, "\n\n") + tail;
    Starting(w.footer, "\n", []);
    assert [w.footer] + [] == [w.footer];
    AfterMore("\n\n", w.footer + "\n", [w.footer]);
    Joined(sections, "\n\n", tail, [w.footer]);
    AfterMore("\n\n", text, sections + [w.footer]);
    Starting(w.notice, "\n\n" + text, sections + [w.footer]);
    ClaudeRootShape(w, sections);
  }

  lemma LoadStep(tree: Tree, names: seq<string>)
    requires names != [] && LoadRules(tree, names).Some?
    ensures RULES + [names[0]] in tree && EndsWith(names[0], ".md")
    ensures ParseRule(names[0], tree[RULES + [names[0]]]).Some? && LoadRules(tree, names[1..]).Some?
    ensures LoadRules(tree, names).value ==
            [ParseRule(names[0], tree[RULES + [names[0]]]).value] + LoadRules(tree, names[1..]).value
  {
  }

  lemma {:induction false} LoadedFromFiles(tree: Tree, names: seq<string>, i: nat)
    requires LoadRules(tree, names).Some? && i < |names|
    ensures |LoadRules(tree, names).value| == |names|
    ensures RULES + [names[i]] in tree && EndsWith(names[i], ".md")
    ensures ParseRule(names[i], tree[RULES + [names[i]]]) == Some(LoadRules(tree, names).value[i])
  {
    var tail := names[1..];
    LoadStep(tree, names);
    if i > 0 {
      assert tail[i - 1] == names[i];
      LoadedFromFiles(tree, tail, i - 1);
    } else if tail != [] {
      LoadedFromFiles(tree, tail, 0);
    }
  }

  // The roots of a plan: AGENTS.md has the notice, every common section in the
  // order of the files' names, then every rule in the order of theirs; the root
  // CLAUDE.md has the sections and the closing one.
  lemma RootsSayTheirSources(w: Wording, tree: Tree)
    requires BuildPlan(w, tree).Some?
    ensures ROOT_AGENTS in BuildPlan(w, tree).value.files && ROOT_CLAUDE in BuildPlan(w, tree).value.files
    ensures InOrder(BuildPlan(w, tree).value.files[ROOT_AGENTS],
                    [w.notice] + (CommonSections(tree) + RuleTexts(Rules(tree).value)))
    ensures InOrder(BuildPlan(w, tree).value.files[ROOT_CLAUDE], [w.notice] + (CommonSections(tree) + [w.footer]))
  {
    var rules := Rules(tree).value;
    CodexRootSays(w, CommonSections(tree), rules);
    ClaudeRootSays(w, CommonSections(tree));
    RootKeys(w, rules);
    assert ROOT_AGENTS !in LocalPaths(tree) && ROOT_CLAUDE !in LocalPaths(tree);
  }

  lemma {:induction false} RootKeys(w: Wording, rules: seq<Rule>)
    ensures ROOT_AGENTS !in RuleFiles(w, rules) && ROOT_CLAUDE !in RuleFiles(w, rules)
  {
    if rules != [] {
      RootKeys(w, rules[..|rules| - 1]);
    }
  }

  // ---- Rule files ----------------------------------------------------------------

  function Heading(rule: Rule): string {
    "# " + rule.title + "\n\n" + rule.body + "\n"
  }

  lemma HeadingSays(rule: Rule)
    ensures InOrder(Heading(rule), [rule.title, rule.body])
  {
    var body := rule.body + "\n";
    Starting(rule.body, "\n", []);
    AfterMore("\n\n", body, [rule.body]);
    Starting(rule.title, "\n\n" + body, [rule.body]);
    AfterMore("# ", rule.title + ("\n\n" + body), [rule.title, rule.body]);
    assert "# " + (rule.title + ("\n\n" + body)) == Heading(rule);
  }

  function EscapedAll(paths: seq<string>): seq<string> {
    if paths == [] then [] else [Escaped(paths[0])] + EscapedAll(paths[1..])
  }

  lemma PathLinesStep(paths: seq<string>, rest: string)
    requires paths != []
    ensures PathLines(paths) + rest ==
            "  - \"" + (Escaped(paths[0]) + ("\"\n" + (PathLines(paths[1..]) + rest)))
  {
    RegroupFour("  - \"", Escaped(paths[0]), "\"\n", PathLines(paths[1..]), rest);
  }

  lemma {:induction false} PathLinesSay(paths: seq<string>, rest: string, more: seq<string>)
    requires InOrder(rest, more)
    ensures InOrder(PathLines(paths) + rest, EscapedAll(paths) + more)
  {
    if paths == [] {
      assert "" + rest == rest && [] + more == more;
    } else {
      var e, tail, parts := Escaped(paths[0]), PathLines(paths[1..]) + rest, EscapedAll(paths[1..]) + more;
      PathLinesSay(paths[1..], rest, more);
      AfterMore("\"\n", tail, parts);
      Starting(e, "\"\n" + tail, parts);
      AfterMore("  - \"", e + ("\"\n" + tail), [e] + parts);
      PathLinesStep(paths, rest);
      Regroup([e], EscapedAll(paths[1..]), more);
    }
  }

  // What follows a rule's paths in its file.
  function AfterPaths(w: Wording, rule: Rule): string {
    "---\n" + (w.notice + ("\n\n" + Heading(rule)))
  }

  lemma AfterPathsSays(w: Wording, rule: Rule)
    ensures InOrder(AfterPaths(w, rule), [w.notice] + [rule.title, rule.body])
  {
    HeadingSays(rule);
    AfterMore("\n\n", Heading(rule), [rule.title, rule.body]);
    Starting(w.notice, "\n\n" + Heading(rule), [rule.title, rule.body]);
    AfterMore("---\n", w.notice + ("\n\n" + Heading(rule)), [w.notice] + [rule.title, rule.body]);
  }

  lemma ClaudeRuleShape(w: Wording, rule: Rule)
    ensures ClaudeRule(w, rule) == "---\npaths:\n" + (PathLines(rule.claudePaths) + AfterPaths(w, rule))
  {
    var front, after := "---\npaths:\n" + PathLines(rule.claudePaths), "\n\n" + Heading(rule);
    Regroup(front + "---\n", w.notice, after);
    Regroup(front, "---\n", w.notice + after);
    Regroup("---\npaths:\n", PathLines(rule.claudePaths), AfterPaths(w, rule));
  }

  // A rule's file has its paths, each escaped, then the notice, title and body.
  lemma ClaudeRuleSays(w: Wording, rule: Rule)
    ensures InOrder(ClaudeRule(w, rule), EscapedAll(rule.claudePaths) + ([w.notice] + [rule.title, rule.body]))
  {
    var says := [w.notice] + [rule.title, rule.body];
    AfterPathsSays(w, rule);
    PathLinesSay(rule.claudePaths, AfterPaths(w, rule), says);
    AfterMore("---\npaths:\n", PathLines(rule.claudePaths) + AfterPaths(w, rule), EscapedAll(rule.claudePaths) + says);
    ClaudeRuleShape(w, rule);
  }

  lemma {:induction false} RuleFileOf(w: Wording, rules: seq<Rule>, i: nat)
    requires i < |rules| && forall k, l :: 0 <= k < l < |rules| ==> rules[k].fileName != rules[l].fileName
    ensures RulePath(rules[i].fileName) in RuleFiles(w, rules)
    ensures RuleFiles(w, rules)[RulePath(rules[i].fileName)] == ClaudeRule(w, rules[i])
  {
    var n := |rules| - 1;
    if i < n {
      RuleFileOf(w, rules[..n], i);
      assert RulePath(rules[i].fileName)[2] != RulePath(rules[n].fileName)[2];
    }
  }

  lemma RuleOfFile(tree: Tree, name: string) returns (i: nat)
    requires Rules(tree).Some? && name in MarkdownNames(tree, RULES)
    ensures RULES + [name] in tree && EndsWith(name, ".md")
    ensures i < |Rules(tree).value| && Rules(tree).value[i].fileName == name
    ensures ParseRule(name, tree[RULES + [name]]) == Some(Rules(tree).value[i])
  {
    var names := Sorted(MarkdownNames(tree, RULES));
    SortedHas(MarkdownNames(tree, RULES), name);
    i :| 0 <= i < |names| && names[i] == name;
    LoadedFromFiles(tree, names, i);
  }

  lemma RulesAreDistinct(tree: Tree)
    requires Rules(tree).Some?
    ensures var rules := Rules(tree).value;
            forall k, l :: 0 <= k < l < |rules| ==> rules[k].fileName != rules[l].fileName
  {
    var names, rules := Sorted(MarkdownNames(tree, RULES)), Rules(tree).value;
    SortedIsDistinct(MarkdownNames(tree, RULES));
    if names != [] { LoadedFromFiles(tree, names, 0); }
    forall k | 0 <= k < |names| ensures rules[k].fileName == names[k] {
      LoadedFromFiles(tree, names, k);
    }
  }

  // The file a plan holds for a rule is rendered from that rule's source.
  lemma RuleFileSaysItsRule(w: Wording, tree: Tree, name: string)
    requires BuildPlan(w, tree).Some? && name in MarkdownNames(tree, RULES)
    ensures RULES + [name] in tree && EndsWith(name, ".md") && ParseRule(name, tree[RULES + [name]]).Some?
    ensures RulePath(name) in BuildPlan(w, tree).value.files
    ensures BuildPlan(w, tree).value.files[RulePath(name)] ==
            ClaudeRule(w, ParseRule(name, tree[RULES + [name]]).value)
  {
    var i := RuleOfFile(tree, name);
    RulesAreDistinct(tree);
    RuleFileOf(w, Rules(tree).value, i);
    assert RulePath(name)[0] == ".claude";
    assert RulePath(name) !in LocalPaths(tree);
  }

  function HexValue(c: char): int {
    if '0' <= c <= '9' then c as int - '0' as int else c as int - 'a' as int + 10
  }

  lemma HexRoundTrip(n: int)
    requires 0 <= n < 16
    ensures HexValue(HexDigit(n)) == n
  {
  }

  // The character a JSON escape at the head of s stands for, and its length.
  function Unescape(s: string): (char, nat) {
    if |s| < 2 then (' ', 2)
    else if s[1] == 'n' then ('\n', 2) else if s[1] == 'r' then ('\r', 2) else if s[1] == 't' then ('\t', 2)
    else if s[1] == 'b' then ('\U{0008}', 2) else if s[1] == 'f' then ('\U{000C}', 2)
    else if s[1] == 'u' && |s| >= 6 then
      var n := HexValue(s[4]) * 16 + HexValue(s[5]);
      (if 0 <= n < 128 then n as char else ' ', 6)
    else (s[1], 2)
  }

  // JSON.parse of what stands between the quotes.
  function Unescaped(s: string): string
    decreases |s|
  {
    if s == "" then ""
    else if s[0] != '\\' then [s[0]] + Unescaped(s[1..])
    else
      var (c, n) := Unescape(s);
      [c] + if n <= |s| then Unescaped(s[n..]) else ""
  }

  lemma UnescapeOne(c: char, rest: string)
    ensures Unescaped(EscapedOne(c) + rest) == [c] + Unescaped(rest)
  {
    var e := EscapedOne(c);
    var s := e + rest;
    assert s[|e|..] == rest;
    if c < ' ' {
      HexRoundTrip(c as int / 16);
      HexRoundTrip(c as int % 16);
    }
    if s[0] == '\\' {
      assert Unescape(s) == (c, |e|);
    }
  }

  // No path is changed by escaping it: parsing gives it back.
  lemma {:induction false} EscapeRoundTrip(s: string)
    ensures Unescaped(Escaped(s)) == s
  {
    if s != "" {
      EscapeRoundTrip(s[1..]);
      UnescapeOne(s[0], Escaped(s[1..]));
    }
  }

  // ---- normalizeBody ---------------------------------------------------------------

  const THREE := "\n\n\n"

  predicate HasThree(s: string) {
    if s == "" then false else StartsWith(s, THREE) || HasThree(s[1..])
  }

  lemma {:induction false} CollapseExactly(s: string)
    ensures !HasThree(CollapseBlankLines(s))
    ensures CollapseBlankLines(s) == s <==> !HasThree(s)
    ensures |CollapseBlankLines(s)| <= |s|
    ensures s != "" ==> CollapseBlankLines(s) != "" && CollapseBlankLines(s)[0] == s[0]
    ensures StartsWith(CollapseBlankLines(s), "\n\n") <==> StartsWith(s, "\n\n")
    decreases |s|
  {
    if s != "" {
      var t := s[1..];
      CollapseExactly(t);
      if !StartsWith(s, THREE) {
        var c := CollapseBlankLines(s);
        assert c == [s[0]] + CollapseBlankLines(t) && c[1..] == CollapseBlankLines(t);
        StartsNext(s);
        StartsNext(c);
        assert s == [s[0]] + t;
      } else {
        assert t[0] == '\n' && t[1] == '\n';
      }
    }
  }

  lemma StartsNext(s: string)
    requires s != ""
    ensures StartsWith(s, THREE) <==> s[0] == '\n' && StartsWith(s[1..], "\n\n")
    ensures StartsWith(s, "\n\n") <==> s[0] == '\n' && |s| >= 2 && s[1] == '\n'
  {
    if |s| >= 3 {
      assert s[..3] == [s[0], s[1], s[2]] && s[1..][..2] == [s[1], s[2]];
    }
    if |s| >= 2 {
      assert s[..2] == [s[0], s[1]];
    }
  }

  // A normalised body never has two blank lines in a row, and is the trimmed
  // body exactly when that had none.
  lemma NormalizedExactly(body: string)
    ensures !HasThree(NormalizeBody(body))
    ensures NormalizeBody(body) == Trim(body) <==> !HasThree(Trim(body))
  {
    CollapseExactly(Trim(body));
  }

  // ---- rewriteClaudeIncludes ---------------------------------------------------------

  // Some line is an @ and a target.
  predicate HasInclude(s: string)
    decreases |s|
  {
    if s == "" then false else
      var n := LineLength(s);
      (n >= 2 && s[0] == '@') || (n < |s| && HasInclude(s[n + 1..]))
  }

  predicate OneLine(s: string) {
    forall c :: c in s ==> !LineBreak(c)
  }

  lemma {:induction false} LineIsFirst(line: string, rest: string)
    requires OneLine(line) && (rest == "" || LineBreak(rest[0]))
    ensures LineLength(line + rest) == |line|
  {
    if line == "" {
      assert line + rest == rest;
    } else {
      assert (line + rest)[1..] == line[1..] + rest;
      assert forall c :: c in line[1..] ==> c in line;
      LineIsFirst(line[1..], rest);
    }
  }

  lemma {:induction false} LineShape(s: string)
    ensures OneLine(s[..LineLength(s)])
    ensures LineLength(s) < |s| ==> LineBreak(s[LineLength(s)])
  {
    if s != "" && !LineBreak(s[0]) {
      LineShape(s[1..]);
      assert s[..LineLength(s)] == [s[0]] + s[1..][..LineLength(s[1..])];
    }
  }

  function RewrittenLine(line: string): string {
    if |line| >= 2 && line[0] == '@' then "Also read `" + IncludeTarget(line[1..]) + "`." else line
  }

  lemma {:induction false} TrimStartIsOneLine(s: string)
    requires OneLine(s)
    ensures OneLine(TrimStart(s))
  {
    if s != "" && IsSpace(s[0]) {
      assert forall c :: c in s[1..] ==> c in s;
      TrimStartIsOneLine(s[1..]);
    }
  }

  lemma {:induction false} TrimEndIsOneLine(s: string)
    requires OneLine(s)
    ensures OneLine(TrimEnd(s))
  {
    if s != "" && IsSpace(s[|s| - 1]) {
      assert forall c :: c in s[..|s| - 1] ==> c in s;
      TrimEndIsOneLine(s[..|s| - 1]);
    }
  }

  lemma RewrittenLineIsOneLine(line: string)
    requires OneLine(line)
    ensures OneLine(RewrittenLine(line))
    ensures RewrittenLine(line) == line <==> !(|line| >= 2 && line[0] == '@')
    ensures |RewrittenLine(line)| >= 2 ==> RewrittenLine(line)[0] != '@'
  {
    if |line| >= 2 && line[0] == '@' {
      var target := line[1..];
      assert forall c :: c in target ==> c in line;
      TrimStartIsOneLine(target);
      TrimEndIsOneLine(TrimStart(target));
      assert OneLine(IncludeTarget(target)) by {
        assert forall c :: c in IncludeTarget(target) ==> c in Trim(target) || c in "AGENTS.md";
      }
      assert RewrittenLine(line)[0] == 'A';
    }
  }

  predicate Break(brk: string, rest: string) {
    if brk == "" then rest == "" else |brk| == 1 && LineBreak(brk[0])
  }

  lemma FirstLine(line: string, brk: string, rest: string)
    requires OneLine(line) && Break(brk, rest)
    ensures var s := line + (brk + rest);
            && LineLength(s) == |line| && s[..|line|] == line && (brk == "" ==> s == line)
            && (brk != "" ==> |line| < |s| && s[|line|] == brk[0] && s[|line| + 1..] == rest)
  {
    LineIsFirst(line, brk + rest);
  }

  lemma IncludesStep(line: string, brk: string, rest: string)
    requires OneLine(line) && Break(brk, rest)
    ensures HasInclude(line + (brk + rest)) <==> (|line| >= 2 && line[0] == '@') || HasInclude(rest)
  {
    FirstLine(line, brk, rest);
  }

  lemma RewriteStep(line: string, brk: string, rest: string)
    requires OneLine(line) && Break(brk, rest)
    ensures RewriteIncludes(line + (brk + rest)) == RewrittenLine(line) + (brk + RewriteIncludes(rest))
  {
    var out := RewrittenLine(line);
    FirstLine(line, brk, rest);
    if brk != "" {
      assert brk == [brk[0]];
      Regroup(out, brk, RewriteIncludes(rest));
    } else if line != "" {
      assert RewriteIncludes(line) == out;
    }
  }

  // A translation has no include left, and is the source exactly when that had
  // none: so translating again changes nothing.
  lemma {:induction false} IncludesRewrittenExactly(s: string)
    ensures RewriteIncludes(s) == s <==> !HasInclude(s)
    ensures !HasInclude(RewriteIncludes(s))
    decreases |s|
  {
    if s != "" {
      var n := LineLength(s);
      var line, brk, rest := s[..n], if n < |s| then [s[n]] else "", if n < |s| then s[n + 1..] else "";
      LineShape(s);
      assert s == line + (brk + rest);
      IncludesStep(line, brk, rest);
      RewriteStep(line, brk, rest);
      RewrittenLineIsOneLine(line);
      IncludesRewrittenExactly(rest);
      IncludesStep(RewrittenLine(line), brk, RewriteIncludes(rest));
      SamePieces(line, brk, rest);
    }
  }

  lemma SamePieces(line: string, brk: string, rest: string)
    requires OneLine(line) && OneLine(RewrittenLine(line))
    requires Break(brk, rest)
    ensures RewrittenLine(line) + (brk + RewriteIncludes(rest)) == line + (brk + rest) <==>
            RewrittenLine(line) == line && RewriteIncludes(rest) == rest
  {
    var out := RewrittenLine(line);
    var x, y := out + (brk + RewriteIncludes(rest)), line + (brk + rest);
    LineIsFirst(out, brk + RewriteIncludes(rest));
    LineIsFirst(line, brk + rest);
    if x == y {
      assert out == x[..|out|] && line == y[..|line|];
      CancelPrefix(line, brk + RewriteIncludes(rest), brk + rest);
      CancelPrefix(brk, RewriteIncludes(rest), rest);
    }
  }
}
