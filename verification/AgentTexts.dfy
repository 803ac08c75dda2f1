// The generated texts of bin/sync-agent-config, letter for letter: how an include
// line is translated, and how the roots and rule files are laid out.
module AgentTexts {
  import opened Text
  import opened AgentConfig
  import opened AgentContent

  // ---- Include lines ---------------------------------------------------------------

  // JavaScript trims Unicode's space separators and its own controls and line
  // terminators, the byte order mark among them (section 12.2 of ECMA-262).
  lemma SpacesExactly(c: char)
    ensures IsSpace(c) <==>
              || c in "\t\n\U{000B}\U{000C}\r \U{00A0}\U{1680}\U{2028}\U{2029}\U{202F}\U{205F}\U{3000}\U{FEFF}"
              || '\U{2000}' <= c <= '\U{200A}'
  {
    var spaces := "\t\n\U{000B}\U{000C}\r \U{00A0}\U{1680}\U{2028}\U{2029}\U{202F}\U{205F}\U{3000}\U{FEFF}";
    assert spaces[0] == '\t' && spaces[1] == '\n' && spaces[2] == '\U{000B}' && spaces[3] == '\U{000C}';
    assert spaces[4] == '\r' && spaces[5] == ' ' && spaces[6] == '\U{00A0}' && spaces[7] == '\U{1680}';
    assert spaces[8] == '\U{2028}' && spaces[9] == '\U{2029}' && spaces[10] == '\U{202F}';
    assert spaces[11] == '\U{205F}' && spaces[12] == '\U{3000}' && spaces[13] == '\U{FEFF}';
  }

  lemma {:induction false} LeadIsTrimmed(lead: string, s: string)
    requires AllSpace(lead)
    ensures TrimStart(lead + s) == TrimStart(s)
  {
    if lead == "" {
      assert lead + s == s;
    } else {
      assert lead[0] in lead && (lead + s)[1..] == lead[1..] + s;
      assert forall c :: c in lead[1..] ==> c in lead;
      LeadIsTrimmed(lead[1..], s);
    }
  }

  lemma {:induction false} TrailIsTrimmed(s: string, trail: string)
    requires AllSpace(trail) && s != "" && !IsSpace(s[|s| - 1])
    ensures TrimEnd(s + trail) == s
  {
    if trail == "" {
      assert s + trail == s;
    } else {
      var init := trail[..|trail| - 1];
      assert trail[|trail| - 1] in trail && (s + trail)[..|s + trail| - 1] == s + init;
      assert forall c :: c in init ==> c in trail;
      TrailIsTrimmed(s, init);
    }
  }

  lemma SpaceIsTrimmed(lead: string, s: string, trail: string)
    requires AllSpace(lead) && AllSpace(trail) && s != "" && !IsSpace(s[0]) && !IsSpace(s[|s| - 1])
    ensures Trim(lead + (s + trail)) == s
  {
    LeadIsTrimmed(lead, s + trail);
    assert (s + trail)[0] == s[0];
    TrailIsTrimmed(s, trail);
  }

  // A target with space around it: a CLAUDE.md becomes the AGENTS.md beside it,
  // any other stays.
  lemma TargetExactly(lead: string, base: string, trail: string)
    requires AllSpace(lead) && AllSpace(trail) && (base != "" ==> !IsSpace(base[0]))
    ensures IncludeTarget(lead + ((base + "CLAUDE.md") + trail)) == base + "AGENTS.md"
    ensures base != "" && !IsSpace(base[|base| - 1]) && !EndsWith(base, "CLAUDE.md") ==>
              IncludeTarget(lead + (base + trail)) == base
  {
    var target := base + "CLAUDE.md";
    assert target[|target| - 1] == 'd' && target[|base|..] == "CLAUDE.md" && target[..|base|] == base;
    assert target[0] == if base == "" then 'C' else base[0];
    SpaceIsTrimmed(lead, target, trail);
    if base != "" && !IsSpace(base[|base| - 1]) {
      SpaceIsTrimmed(lead, base, trail);
    }
  }

  // A line that starts with @ and goes on is rewritten; any other is left.
  lemma LineExactly(target: string, line: string)
    requires target != ""
    ensures RewrittenLine("@" + target) == "Also read `" + IncludeTarget(target) + "`."
    ensures line == "" || line[0] != '@' || line == "@" ==> RewrittenLine(line) == line
  {
    assert ("@" + target)[1..] == target;
  }

  function RewrittenLines(lines: seq<string>): seq<string> {
    if lines == [] then [] else [RewrittenLine(lines[0])] + RewrittenLines(lines[1..])
  }

  // A source is translated line by line.
  lemma {:induction false} RewritesLineByLine(lines: seq<string>)
    requires lines != [] && forall l :: l in lines ==> OneLine(l)
    ensures RewriteIncludes(Join(lines, "\n")) == Join(RewrittenLines(lines), "\n")
  {
    var line, tail := lines[0], lines[1..];
    assert line in lines && forall l :: l in tail ==> l in lines;
    if tail == [] {
      RewriteStep(line, "", "");
      assert line + ("" + "") == line && RewrittenLine(line) + ("" + "") == RewrittenLine(line);
    } else {
      RewritesLineByLine(tail);
      RewriteStep(line, "\n", Join(tail, "\n"));
      Regroup(line, "\n", Join(tail, "\n"));
      Regroup(RewrittenLine(line), "\n", Join(RewrittenLines(tail), "\n"));
      assert RewrittenLines(lines)[1..] == RewrittenLines(tail);
    }
  }

  // The file beside a CLAUDE.md: the notice, then the source so translated and
  // trimmed.
  lemma TranslationExactly(w: Wording, lines: seq<string>)
    requires lines != [] && forall l :: l in lines ==> OneLine(l)
    ensures LocalAgents(w, Join(lines, "\n")) ==
            w.notice + "\n\n" + Trim(Join(RewrittenLines(lines), "\n")) + "\n"
  {
    RewritesLineByLine(lines);
    var text := Trim(Join(RewrittenLines(lines), "\n"));
    Regroup(w.notice + "\n\n", text, "\n");
    Regroup(w.notice, "\n\n", text + "\n");
    assert "" + w.notice == w.notice;
  }

  // ---- Layouts ------------------------------------------------------------------------

  lemma JoinOfTwo(a: string, b: string, sep: string)
    ensures Join([a, b], sep) == a + sep + b && Join([a], sep) == a
  {
    assert [a, b][1..] == [b];
  }

  lemma JoinOfThree(a: string, b: string, c: string, sep: string)
    ensures Join([a, b, c], sep) == a + sep + (b + sep + c)
  {
    assert [a, b, c][1..] == [b, c];
    JoinOfTwo(b, c, sep);
  }

  // The roots over two sections and two rules.
  lemma RootTexts(w: Wording, a: string, b: string, r: Rule, q: Rule)
    ensures CodexRoot(w, [a, b], [r, q]) ==
            w.notice + ("\n\n" + (a + "\n\n" + (b + "\n\n" +
              ("## " + r.title + "\n\n" + r.body + "\n\n" + ("## " + q.title + "\n\n" + q.body))) + "\n"))
    ensures ClaudeRoot(w, [a, b]) == w.notice + ("\n\n" + (a + "\n\n" + b + "\n\n" + w.footer + "\n"))
    ensures CodexRoot(w, [], []) == w.notice + ("\n\n" + "\n")
  {
    var rule, other := "## " + r.title + "\n\n" + r.body, "## " + q.title + "\n\n" + q.body;
    assert [r, q][1..] == [q] && [q][1..] == [];
    assert RuleTexts([q]) == [other] + [];
    assert RuleTexts([r, q]) == [rule] + RuleTexts([q]) == [rule, other];
    JoinOfTwo(rule, other, "\n\n");
    assert [a, b] + InlineRules([r, q]) == [a, b, rule + "\n\n" + other];
    JoinOfThree(a, b, rule + "\n\n" + other, "\n\n");
    JoinOfTwo(a, b, "\n\n");
    assert "" + w.notice == w.notice && [] + InlineRules([]) == [] && "" + "\n" == "\n";
  }

  // A rule's file with two paths.
  lemma RuleFileText(w: Wording, rule: Rule, p: string, q: string)
    requires rule.claudePaths == [p, q]
    ensures ClaudeRule(w, rule) ==
            "---\npaths:\n" + ("  - \"" + Escaped(p) + "\"\n" + ("  - \"" + Escaped(q) + "\"\n")) + "---\n" + w.notice
            + ("\n\n" + ("# " + rule.title + "\n\n" + rule.body + "\n"))
  {
    assert [p, q][1..] == [q] && [q][1..] == [];
    assert PathLines([q]) == "  - \"" + Escaped(q) + "\"\n" + "";
    assert PathLines([p, q]) == "  - \"" + Escaped(p) + "\"\n" + PathLines([q]);
  }
}
