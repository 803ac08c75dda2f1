// The plan of bin/sync-agent-config: what each generated file should hold,
// computed from the sources in a file tree.
module AgentConfig {
  import opened Text
  import opened Wrappers

  type Path = seq<string>
  type Tree = map<Path, string>

  const COMMON: Path := ["ai", "common"]
  const RULES: Path := ["ai", "rules"]
  const ROOT_AGENTS: Path := ["AGENTS.md"]
  const ROOT_CLAUDE: Path := ["CLAUDE.md"]
  const IGNORED := {".git", ".claude", "coverage", "dist", "node_modules"}

  // markdownFiles(dir), as a set; Sorted gives the order it returns them in.
  function MarkdownNames(tree: Tree, dir: Path): set<string> {
    set p | p in tree && |p| == |dir| + 1 && p[..|dir|] == dir && EndsWith(p[|dir|], ".md") :: p[|dir|]
  }

  // ---- Frontmatter -----------------------------------------------------------

  datatype Value = Scalar(text: string) | List(items: seq<string>)

  datatype Parsed = Parsed(data: map<string, Value>, body: string)

  function IndexOf(s: string, t: string, from: nat): Option<nat>
    decreases |s| - from
  {
    if from + |t| > |s| then None
    else if s[from..from + |t|] == t then Some(from)
    else IndexOf(s, t, from + 1)
  }

  predicate LineBreak(c: char) {
    c == '\n' || c == '\r' || c == '\U{2028}' || c == '\U{2029}'
  }

  function Unquote(v: string): string {
    if v != "" && v[0] == v[|v| - 1] && (v[0] == '"' || v[0] == '\'') then
      if |v| == 1 then "" else v[1..|v| - 1]
    else v
  }

  // /^\s*-\s*(.*)$/ on one line
  function ListItem(line: string): Option<string> {
    var s := TrimStart(line);
    if s == "" || s[0] != '-' then None else
      var item := TrimStart(s[1..]);
      if exists i :: 0 <= i < |item| && LineBreak(item[i]) then None else Some(item)
  }

  predicate Letter(c: char) {
    'a' <= c <= 'z' || 'A' <= c <= 'Z'
  }

  function KeyLength(s: string): nat
    ensures KeyLength(s) <= |s|
  {
    if s == "" || !(Letter(s[0]) || '0' <= s[0] <= '9' || s[0] == '_' || s[0] == '-') then 0 else 1 + KeyLength(s[1..])
  }

  // /^([A-Za-z][A-Za-z0-9_-]*):\s*(.*)$/ on one line
  function KeyLine(line: string): Option<(string, string)> {
    if line == "" || !Letter(line[0]) then None else
      var n := KeyLength(line);
      if n == |line| || line[n] != ':' then None else
        var value := TrimStart(line[n + 1..]);
        if exists i :: 0 <= i < |value| && LineBreak(value[i]) then None else Some((line[..n], value))
  }

  function ParseLines(lines: seq<string>, key: Option<string>, data: map<string, Value>): Option<map<string, Value>> {
    if lines == [] then Some(data)
    else if Trim(lines[0]) == "" then ParseLines(lines[1..], key, data)
    else
      var item := ListItem(lines[0]);
      if item.Some? && key.Some? then
        if key.value in data && data[key.value].List? then
          ParseLines(lines[1..], key, data[key.value := List(data[key.value].items + [Unquote(Trim(item.value))])])
        else None
      else
        var pair := KeyLine(lines[0]);
        if pair.None? then None else
          var value := Trim(pair.value.1);
          ParseLines(lines[1..], Some(pair.value.0),
                     data[pair.value.0 := if value == "" then List([]) else Scalar(Unquote(value))])
  }

  function ParseFrontmatter(source: string): Option<Parsed> {
    if !StartsWith(source, "---\n") then Some(Parsed(map[], source)) else
      var end := IndexOf(source, "\n---\n", 4);
      if end.None? || end.value + 5 > |source| || end.value < 4 then None else
        var data := ParseLines(Split(source[4..end.value], '\n'), None, map[]);
        if data.None? then None else Some(Parsed(data.value, source[end.value + 5..]))
  }

  // ---- Rules -----------------------------------------------------------------

  datatype Rule = Rule(body: string, claudePaths: seq<string>, fileName: string, title: string)

  // JavaScript's ||: an empty string falls through, an empty list does not.
  function Truthy(data: map<string, Value>, key: string): Option<Value> {
    if key in data && data[key] != Scalar("") then Some(data[key]) else None
  }

  function CollapseBlankLines(s: string): string
    decreases |s|
  {
    if s == "" then ""
    else if StartsWith(s, "\n\n\n") then CollapseBlankLines(s[1..])
    else [s[0]] + CollapseBlankLines(s[1..])
  }

  function NormalizeBody(body: string): string {
    CollapseBlankLines(Trim(body))
  }

  function ParseRule(name: string, source: string): Option<Rule>
    requires EndsWith(name, ".md")
  {
    var parsed := ParseFrontmatter(source);
    if parsed.None? then None else
      var data := parsed.value.data;
      var title := match Truthy(data, "title")
        case Some(Scalar(text)) => text
        case Some(List(items)) => Join(items, ",")
        case None => name[..|name| - 3];
      var paths := if Truthy(data, "claudePaths").Some? then Truthy(data, "claudePaths") else Truthy(data, "paths");
      match paths
      case Some(List(items)) =>
        if items == [] then None else Some(Rule(NormalizeBody(parsed.value.body), items, name, title))
      case _ => None
  }

  function LoadRules(tree: Tree, names: seq<string>): Option<seq<Rule>> {
    if names == [] then Some([])
    else if RULES + [names[0]] !in tree || !EndsWith(names[0], ".md") then None
    else
      var rule, rest := ParseRule(names[0], tree[RULES + [names[0]]]), LoadRules(tree, names[1..]);
      if rule.None? || rest.None? then None else Some([rule.value] + rest.value)
  }

  // One trimmed section, if it is not empty.
  function Section(tree: Tree, name: string): seq<string> {
    if COMMON + [name] in tree && Trim(tree[COMMON + [name]]) != "" then [Trim(tree[COMMON + [name]])] else []
  }

  function Sections(tree: Tree, names: seq<string>): seq<string> {
    if names == [] then [] else Section(tree, names[0]) + Sections(tree, names[1..])
  }

  // ---- Rendering -------------------------------------------------------------

  // The fixed texts: the line a generated file is recognised by, and the closing
  // section of the root CLAUDE.md. Everything below holds for any wording whose
  // notice opens like an HTML comment; WORDING is the script's own, written so that
  // the character its notice opens with stands by itself.
  datatype Wording = Wording(notice: string, footer: string)

  const WORDING := Wording(
    "<" + "!-- Generated by bin/sync-agent-config. Edit ai/ or nested CLAUDE.md files, then re-run. -->",
    "## Scoped Rules\n\nScoped Claude rules are generated from `ai/rules/` into `.claude/rules/`.\n" +
    "Codex reads those same rules inline from `AGENTS.md`.")

  predicate IsComment(w: Wording) {
    w.notice != "" && w.notice[0] == '<'
  }

  function Marked(w: Wording, before: string, after: string): string {
    before + w.notice + ("\n\n" + after)
  }

  function RuleText(rule: Rule): string {
    "## " + rule.title + "\n\n" + rule.body
  }

  function RuleTexts(rules: seq<Rule>): seq<string> {
    if rules == [] then [] else [RuleText(rules[0])] + RuleTexts(rules[1..])
  }

  function InlineRules(rules: seq<Rule>): seq<string> {
    if rules == [] then [] else [Join(RuleTexts(rules), "\n\n")]
  }

  function CodexRoot(w: Wording, sections: seq<string>, rules: seq<Rule>): string {
    Marked(w, "", Join(sections + InlineRules(rules), "\n\n") + "\n")
  }

  function ClaudeRoot(w: Wording, sections: seq<string>): string {
    Marked(w, "", Join(sections, "\n\n") + "\n\n" + w.footer + "\n")
  }

  function HexDigit(n: int): char
    requires 0 <= n < 16
  {
    "0123456789abcdef"[n]
  }

  // JSON.stringify of one character, and of a string.
  function EscapedOne(c: char): string {
    if c == '"' then "\\\"" else if c == '\\' then "\\\\"
    else if c == '\n' then "\\n" else if c == '\r' then "\\r" else if c == '\t' then "\\t"
    else if c == '\U{0008}' then "\\b" else if c == '\U{000C}' then "\\f"
    else if c < ' ' then "\\u00" + [HexDigit(c as int / 16), HexDigit(c as int % 16)]
    else [c]
  }

  function Escaped(s: string): string {
    if s == "" then "" else EscapedOne(s[0]) + Escaped(s[1..])
  }

  function PathLines(paths: seq<string>): string {
    if paths == [] then "" else "  - \"" + Escaped(paths[0]) + "\"\n" + PathLines(paths[1..])
  }

  function ClaudeRule(w: Wording, rule: Rule): string {
    Marked(w, "---\npaths:\n" + PathLines(rule.claudePaths) + "---\n", "# " + rule.title + "\n\n" + rule.body + "\n")
  }

  function LineLength(s: string): nat
    ensures LineLength(s) <= |s|
  {
    if s == "" || LineBreak(s[0]) then 0 else 1 + LineLength(s[1..])
  }

  function IncludeTarget(target: string): string {
    var t := Trim(target);
    if EndsWith(t, "CLAUDE.md") then t[..|t| - 9] + "AGENTS.md" else t
  }

  // /^@(.+)$/gm, line by line
  function RewriteIncludes(s: string): string
    decreases |s|
  {
    if s == "" then "" else
      var n := LineLength(s);
      var line := s[..n];
      var out := if n >= 2 && line[0] == '@' then "Also read `" + IncludeTarget(line[1..]) + "`." else line;
      if n == |s| then out else out + [s[n]] + RewriteIncludes(s[n + 1..])
  }

  function LocalAgents(w: Wording, source: string): string {
    Marked(w, "", Trim(RewriteIncludes(source)) + "\n")
  }

  // ---- The plan --------------------------------------------------------------

  function Sibling(p: Path, name: string): Path
    requires p != []
  {
    p[..|p| - 1] + [name]
  }

  predicate Nested(p: Path, name: string) {
    |p| >= 2 && p[|p| - 1] == name && p[0] !in IGNORED
  }

  function RulePath(name: string): Path {
    [".claude", "rules", name]
  }

  datatype Plan = Plan(files: map<Path, string>, expected: set<string>)

  function RuleFiles(w: Wording, rules: seq<Rule>): map<Path, string> {
    if rules == [] then map[] else
      RuleFiles(w, rules[..|rules| - 1])[RulePath(rules[|rules| - 1].fileName) := ClaudeRule(w, rules[|rules| - 1])]
  }

  function LocalPaths(tree: Tree): set<Path> {
    set p | p in tree && Nested(p, "CLAUDE.md") :: Sibling(p, "AGENTS.md")
  }

  function LocalFiles(w: Wording, tree: Tree): map<Path, string> {
    map q | q in LocalPaths(tree) && Sibling(q, "CLAUDE.md") in tree :: LocalAgents(w, tree[Sibling(q, "CLAUDE.md")])
  }

  ghost function CommonSections(tree: Tree): seq<string> {
    Sections(tree, Sorted(MarkdownNames(tree, COMMON)))
  }

  ghost function Rules(tree: Tree): Option<seq<Rule>> {
    LoadRules(tree, Sorted(MarkdownNames(tree, RULES)))
  }

  function RootFiles(w: Wording, sections: seq<string>, rules: seq<Rule>): map<Path, string> {
    map[ROOT_AGENTS := CodexRoot(w, sections, rules), ROOT_CLAUDE := ClaudeRoot(w, sections)]
  }

  ghost function BuildPlan(w: Wording, tree: Tree): Option<Plan> {
    var rules := Rules(tree);
    if rules.None? then None else
      Some(Plan(RootFiles(w, CommonSections(tree), rules.value) + RuleFiles(w, rules.value)
                + LocalFiles(w, tree), MarkdownNames(tree, RULES)))
  }
}
