// The frontmatter bin/sync-agent-config writes into a rule file, read back by
// its own parser.
module AgentFrontmatter {
  import opened Text
  import opened AgentConfig
  import opened AgentContent
  import opened Wrappers

  const CLOSING := "\n---\n"

  function ItemLine(path: string): string {
    "  - \"" + Escaped(path) + "\""
  }

  function ItemLines(paths: seq<string>): seq<string> {
    if paths == [] then [] else [ItemLine(paths[0])] + ItemLines(paths[1..])
  }

  // The lines between the two dashed ones.
  function FrontLines(paths: seq<string>): seq<string> {
    ["paths:"] + ItemLines(paths)
  }

  predicate NoBreak(s: string) {
    '\n' !in s && '\r' !in s
  }

  // The two line separators that JSON leaves alone and a regular expression's
  // dot does not cross.
  predicate Separator(c: char) {
    c == '\U{2028}' || c == '\U{2029}'
  }

  predicate Separated(s: string) {
    exists c :: c in s && Separator(c)
  }

  // ---- What escaping keeps -------------------------------------------------------

  predicate Plain(c: char) {
    c != '\n' && c != '\r' && !Separator(c)
  }

  lemma HexDigitIsPlain(n: int)
    requires 0 <= n < 16
    ensures Plain(HexDigit(n))
  {
    assert n < 10 ==> HexDigit(n) == (48 + n) as char;
    assert n >= 10 ==> HexDigit(n) == (87 + n) as char;
  }

  lemma PlainText(s: string)
    requires forall c :: c in s ==> Plain(c)
    ensures NoBreak(s) && !Separated(s)
  {
  }

  lemma EscapedOneIsVisible(c: char)
    ensures NoBreak(EscapedOne(c)) && EscapedOne(c) != ""
    ensures Separated(EscapedOne(c)) <==> Separator(c)
  {
    if Separator(c) {
      assert c in EscapedOne(c);
    } else {
      if c < ' ' {
        HexDigitIsPlain(c as int / 16);
        HexDigitIsPlain(c as int % 16);
      }
      PlainText(EscapedOne(c));
    }
  }

  lemma SeparatedSplits(a: string, b: string)
    ensures Separated(a + b) <==> Separated(a) || Separated(b)
  {
    if Separated(a) {
      var c :| c in a && Separator(c);
      assert c in a + b;
    }
    if Separated(b) {
      var c :| c in b && Separator(c);
      assert c in a + b;
    }
  }

  lemma {:induction false} EscapedIsVisible(s: string)
    ensures NoBreak(Escaped(s)) && (Separated(Escaped(s)) <==> Separated(s))
  {
    if s != "" {
      EscapedIsVisible(s[1..]);
      EscapedOneIsVisible(s[0]);
      SeparatedSplits(EscapedOne(s[0]), Escaped(s[1..]));
      SeparatedSplits([s[0]], s[1..]);
      assert s == [s[0]] + s[1..];
      assert Separated([s[0]]) <==> Separator(s[0]) by {
        assert s[0] in [s[0]];
      }
    }
  }

  lemma ItemLineIsOneLine(path: string)
    ensures '\n' !in ItemLine(path) && ItemLine(path)[0] == ' '
  {
    EscapedIsVisible(path);
  }

  lemma {:induction false} ItemLinesAreLines(paths: seq<string>)
    ensures |ItemLines(paths)| == |paths|
    ensures forall i :: 0 <= i < |paths| ==> ItemLines(paths)[i] == ItemLine(paths[i])
  {
    if paths != [] {
      ItemLinesAreLines(paths[1..]);
    }
  }

  predicate Undashed(lines: seq<string>) {
    forall l :: l in lines ==> l != "" && l[0] != '-' && '\n' !in l
  }

  lemma ItemLinesAreUndashed(paths: seq<string>)
    ensures Undashed(ItemLines(paths))
  {
    ItemLinesAreLines(paths);
    forall l | l in ItemLines(paths) ensures l != "" && l[0] != '-' && '\n' !in l {
      var i :| 0 <= i < |paths| && ItemLines(paths)[i] == l;
      ItemLineIsOneLine(paths[i]);
    }
  }

  // ---- Where the frontmatter ends --------------------------------------------------

  // No closing starts at these positions.
  predicate Free(s: string, from: nat, to: nat) {
    forall j :: from <= j < to ==> !OccursAt(s, CLOSING, j)
  }

  lemma {:induction false} FirstIsFound(s: string, from: nat, at: nat)
    requires from <= at && Free(s, from, at) && OccursAt(s, CLOSING, at)
    ensures IndexOf(s, CLOSING, from) == Some(at)
    decreases at - from
  {
    if from < at {
      assert !OccursAt(s, CLOSING, from);
      FirstIsFound(s, from + 1, at);
    }
  }

  lemma LineIsFree(s: string, from: nat, line: string)
    requires from + |line| <= |s| && '\n' !in line && s[from..from + |line|] == line
    ensures Free(s, from, from + |line|)
  {
    forall j | from <= j < from + |line| ensures !OccursAt(s, CLOSING, j) {
      assert s[j] == line[j - from];
      if j + |CLOSING| <= |s| {
        assert s[j..j + |CLOSING|][0] == s[j];
      }
    }
  }

  lemma BreakIsFree(s: string, at: nat)
    requires at + 1 < |s| && s[at + 1] != '-'
    ensures !OccursAt(s, CLOSING, at)
  {
    if at + |CLOSING| <= |s| {
      assert s[at..at + |CLOSING|][1] == s[at + 1];
    }
  }

  // What a text holds from a position on, taken apart.
  lemma Drop(s: string, from: nat, a: string, b: string)
    requires from <= |s| && s[from..] == a + b
    ensures from + |a| <= |s| && s[from..from + |a|] == a && s[from + |a|..] == b
  {
    assert |s| == from + |a| + |b|;
    assert s[from..from + |a|] == s[from..][..|a|] == a;
    assert s[from + |a|..] == s[from..][|a|..] == b;
  }

  lemma LastLine(s: string, from: nat, line: string, rest: string)
    requires from <= |s| && '\n' !in line && s[from..] == line + (CLOSING + rest)
    ensures Free(s, from, from + |line|) && OccursAt(s, CLOSING, from + |line|)
  {
    Drop(s, from, line, CLOSING + rest);
    Drop(s, from + |line|, CLOSING, rest);
    LineIsFree(s, from, line);
  }

  lemma LineAndRest(s: string, from: nat, line: string, tail: string)
    requires from <= |s| && s[from..] == line + ("\n" + tail)
    ensures from + |line| + 1 <= |s| && s[from..from + |line|] == line && s[from + |line| + 1..] == tail
  {
    Drop(s, from, line, "\n" + tail);
    Drop(s, from + |line|, "\n", tail);
  }

  lemma LineAndBreakAreFree(s: string, from: nat, line: string, tail: string)
    requires from + |line| + 1 <= |s| && s[from..from + |line|] == line && s[from + |line| + 1..] == tail
    requires '\n' !in line && tail != "" && tail[0] != '-'
    ensures Free(s, from, from + |line| + 1)
  {
    assert s[from + |line| + 1] == tail[0];
    LineIsFree(s, from, line);
    BreakIsFree(s, from + |line|);
  }

  lemma NextLine(first: string, more: string, rest: string)
    ensures first + ("\n" + more) + (CLOSING + rest) == first + ("\n" + (more + (CLOSING + rest)))
  {
    Regroup(first, "\n" + more, CLOSING + rest);
    Regroup("\n", more, CLOSING + rest);
  }

  lemma TextAfterFirst(s: string, from: nat, lines: seq<string>, rest: string)
    requires |lines| > 1 && from <= |s| && s[from..] == Join(lines, "\n") + (CLOSING + rest)
    ensures s[from..] == lines[0] + ("\n" + (Join(lines[1..], "\n") + (CLOSING + rest)))
    ensures |Join(lines, "\n")| == |lines[0]| + 1 + |Join(lines[1..], "\n")|
  {
    var more := Join(lines[1..], "\n");
    Regroup(lines[0], "\n", more);
    NextLine(lines[0], more, rest);
  }

  predicate AllButFirstUndashed(lines: seq<string>) {
    lines != [] && '\n' !in lines[0] && Undashed(lines[1..])
  }

  lemma OpensUndashed(lines: seq<string>, rest: string)
    requires lines != [] && Undashed(lines)
    ensures AllButFirstUndashed(lines)
    ensures var tail := Join(lines, "\n") + (CLOSING + rest); tail != "" && tail[0] != '-'
  {
    assert lines == [lines[0]] + lines[1..];
    assert forall l :: l in lines[1..] ==> l in lines;
    JoinStep(lines[0], lines[1..], "\n");
    assert lines[0] in lines && Join(lines, "\n")[0] == lines[0][0];
  }

  lemma FirstIsFree(s: string, from: nat, lines: seq<string>, rest: string)
    requires |lines| > 1 && AllButFirstUndashed(lines)
    requires from <= |s| && s[from..] == Join(lines, "\n") + (CLOSING + rest)
    ensures var next := from + |lines[0]| + 1;
            && next <= |s| && s[next..] == Join(lines[1..], "\n") + (CLOSING + rest)
            && Free(s, from, next)
  {
    var tail := Join(lines[1..], "\n") + (CLOSING + rest);
    TextAfterFirst(s, from, lines, rest);
    LineAndRest(s, from, lines[0], tail);
    OpensUndashed(lines[1..], rest);
    LineAndBreakAreFree(s, from, lines[0], tail);
  }

  lemma {:induction false} LinesAreFree(s: string, from: nat, lines: seq<string>, rest: string)
    requires AllButFirstUndashed(lines)
    requires from <= |s| && s[from..] == Join(lines, "\n") + (CLOSING + rest)
    ensures var end := from + |Join(lines, "\n")|; Free(s, from, end) && OccursAt(s, CLOSING, end)
    decreases |lines|
  {
    if |lines| == 1 {
      LastLine(s, from, lines[0], rest);
    } else {
      TextAfterFirst(s, from, lines, rest);
      FirstIsFree(s, from, lines, rest);
      OpensUndashed(lines[1..], rest);
      LinesAreFree(s, from + |lines[0]| + 1, lines[1..], rest);
    }
  }

  // After lines none of which but the first may start with a dash, the closing is
  // found where they end.
  lemma ClosingFound(s: string, from: nat, lines: seq<string>, rest: string)
    requires AllButFirstUndashed(lines)
    requires from <= |s| && s[from..] == Join(lines, "\n") + (CLOSING + rest)
    ensures IndexOf(s, CLOSING, from) == Some(from + |Join(lines, "\n")|)
  {
    LinesAreFree(s, from, lines, rest);
    FirstIsFound(s, from, from + |Join(lines, "\n")|);
  }

  // ---- Reading the lines -----------------------------------------------------------

  lemma TrimEndOfQuoted(s: string)
    requires s != "" && !IsSpace(s[|s| - 1])
    ensures TrimEnd(s) == s
  {
  }

  function Quoted(path: string): string {
    "\"" + Escaped(path) + "\""
  }

  lemma QuotedIsRead(path: string)
    ensures Trim(Quoted(path)) == Quoted(path) && TrimStart(" " + Quoted(path)) == Quoted(path)
    ensures Unquote(Quoted(path)) == Escaped(path)
  {
    var quoted := Quoted(path);
    TrimEndOfQuoted(quoted);
    assert (" " + quoted)[1..] == quoted;
    assert quoted[1..|quoted| - 1] == Escaped(path);
  }

  lemma ItemIsTrimmed(path: string)
    ensures TrimStart(ItemLine(path)) == "- " + Quoted(path) && Trim(ItemLine(path)) != ""
  {
    var item := "- " + Quoted(path);
    assert ItemLine(path) == "  " + item;
    assert TrimStart(item) == item;
    assert (" " + item)[1..] == item && TrimStart(" " + item) == item;
    assert ("  " + item)[1..] == " " + item && TrimStart("  " + item) == item;
    TrimEndOfQuoted(item);
  }

  predicate Breaks(s: string) {
    exists i :: 0 <= i < |s| && LineBreak(s[i])
  }

  lemma QuotedBreaks(path: string)
    ensures Breaks(Quoted(path)) <==> Separated(path)
  {
    var quoted, escaped := Quoted(path), Escaped(path);
    EscapedIsVisible(path);
    if Separated(path) {
      var c :| c in escaped && Separator(c);
      var i :| 0 <= i < |escaped| && escaped[i] == c;
      assert LineBreak(quoted[i + 1]);
    } else {
      forall i | 0 <= i < |quoted| ensures !LineBreak(quoted[i]) {
        if 0 < i < |quoted| - 1 {
          assert quoted[i] == escaped[i - 1] && escaped[i - 1] in escaped;
          assert !Separator(escaped[i - 1]);
        }
      }
    }
  }

  lemma ItemIsRead(path: string)
    ensures Trim(ItemLine(path)) != "" && KeyLine(ItemLine(path)) == None
    ensures ListItem(ItemLine(path)) == if Separated(path) then None else Some(Quoted(path))
    ensures Unquote(Trim(Quoted(path))) == Escaped(path)
  {
    QuotedIsRead(path);
    ItemIsTrimmed(path);
    QuotedBreaks(path);
    assert ("- " + Quoted(path))[1..] == " " + Quoted(path);
  }

  predicate AnySeparated(paths: seq<string>) {
    exists p :: p in paths && Separated(p)
  }

  function PathData(paths: seq<string>): map<string, Value> {
    map["paths" := List(paths)]
  }

  // An item's line grows the list of the key above it.
  lemma ItemGrows(line: string, item: string, rest: seq<string>, key: string, data: map<string, Value>,
                  done: seq<string>)
    requires Trim(line) != "" && ListItem(line) == Some(item)
    ensures ParseLines([line] + rest, Some(key), data[key := List(done)]) ==
            ParseLines(rest, Some(key), data[key := List(done + [Unquote(Trim(item))])])
  {
    var lines, before := [line] + rest, data[key := List(done)];
    assert lines[0] == line && lines[1..] == rest;
    assert before[key := List(done + [Unquote(Trim(item))])] == data[key := List(done + [Unquote(Trim(item))])];
  }

  lemma ItemStops(line: string, rest: seq<string>, key: Option<string>, data: map<string, Value>)
    requires Trim(line) != "" && ListItem(line) == None && KeyLine(line) == None
    ensures ParseLines([line] + rest, key, data) == None
  {
    assert ([line] + rest)[0] == line;
  }

  // Rendered items grow it one by one; a line separator stops the parser.
  lemma {:induction false} ItemsAreRead(key: string, data: map<string, Value>, done: seq<string>, paths: seq<string>)
    ensures ParseLines(ItemLines(paths), Some(key), data[key := List(done)]) ==
            if AnySeparated(paths) then None else Some(data[key := List(done + EscapedAll(paths))])
    decreases |paths|
  {
    if paths == [] {
      assert done + [] == done;
    } else {
      var p, tail := paths[0], paths[1..];
      assert paths == [p] + tail;
      ItemIsRead(p);
      if Separated(p) {
        assert p in paths;
        ItemStops(ItemLine(p), ItemLines(tail), Some(key), data[key := List(done)]);
      } else {
        ItemGrows(ItemLine(p), Quoted(p), ItemLines(tail), key, data, done);
        ItemsAreRead(key, data, done + [Escaped(p)], tail);
        Regroup(done, [Escaped(p)], EscapedAll(tail));
        assert AnySeparated(paths) <==> AnySeparated(tail);
      }
    }
  }

  lemma HeadIsRead(lines: seq<string>)
    ensures ParseLines(["paths:"] + lines, None, map[]) == ParseLines(lines, Some("paths"), PathData([]))
  {
    var all := ["paths:"] + lines;
    assert all[0] == "paths:" && all[1..] == lines;
    PathsLine();
    assert map[]["paths" := List([])] == PathData([]);
  }

  lemma PathsLine()
    ensures Trim("paths:") != "" && ListItem("paths:") == None && KeyLine("paths:") == Some(("paths", ""))
  {
    var s := "paths:";
    TrimEndOfQuoted(s);
    assert KeyLength(s[5..]) == 0;
    assert KeyLength(s[3..]) == 2 by { assert s[3..][1..][1..] == s[5..]; }
    assert s[1..][1..][1..] == s[3..];
    assert s[..5] == "paths" && s[6..] == "";
  }

  // ---- The round trip ----------------------------------------------------------------

  lemma {:induction false} LinesJoin(paths: seq<string>)
    ensures paths != [] ==> Join(ItemLines(paths), "\n") + "\n" == PathLines(paths)
  {
    if paths != [] {
      LinesJoin(paths[1..]);
      JoinStep(ItemLine(paths[0]), ItemLines(paths[1..]), "\n");
    }
  }

  lemma FrontJoins(paths: seq<string>)
    ensures Join(FrontLines(paths), "\n") + "\n" == "paths:\n" + PathLines(paths)
  {
    JoinStep("paths:", ItemLines(paths), "\n");
    LinesJoin(paths);
  }

  // What stands below the frontmatter of a rule's file.
  function Underneath(w: Wording, rule: Rule): string {
    w.notice + ("\n\n" + Heading(rule))
  }

  lemma RuleFileShape(w: Wording, rule: Rule)
    ensures ClaudeRule(w, rule) ==
            "---\n" + (Join(FrontLines(rule.claudePaths), "\n") + (CLOSING + Underneath(w, rule)))
  {
    var text := Join(FrontLines(rule.claudePaths), "\n");
    ClaudeRuleShape(w, rule);
    FrontJoins(rule.claudePaths);
    Regroup("---\n" + "paths:\n", PathLines(rule.claudePaths), AfterPaths(w, rule));
    Regroup("---\n", "paths:\n", PathLines(rule.claudePaths));
    Regroup("---\n", text + "\n", AfterPaths(w, rule));
    Regroup(text, "\n", AfterPaths(w, rule));
    assert "\n" + AfterPaths(w, rule) == CLOSING + Underneath(w, rule);
  }

  lemma RuleFileOpens(w: Wording, rule: Rule)
    ensures var file := ClaudeRule(w, rule);
            && StartsWith(file, "---\n")
            && file[4..] == Join(FrontLines(rule.claudePaths), "\n") + (CLOSING + Underneath(w, rule))
  {
    RuleFileShape(w, rule);
  }

  lemma FrontIsUndashed(paths: seq<string>)
    ensures AllButFirstUndashed(FrontLines(paths))
  {
    ItemLinesAreUndashed(paths);
    assert FrontLines(paths)[0] == "paths:" && FrontLines(paths)[1..] == ItemLines(paths);
  }

  lemma FrontLinesSplit(paths: seq<string>)
    ensures Split(Join(FrontLines(paths), "\n"), '\n') == FrontLines(paths)
  {
    ItemLinesAreUndashed(paths);
    SplitOfJoin(FrontLines(paths), '\n');
  }

  lemma LinesAreRead(paths: seq<string>)
    ensures ParseLines(Split(Join(FrontLines(paths), "\n"), '\n'), None, map[]) ==
            if AnySeparated(paths) then None else Some(PathData(EscapedAll(paths)))
  {
    FrontLinesSplit(paths);
    HeadIsRead(ItemLines(paths));
    ItemsAreRead("paths", map[], [], paths);
    assert map[]["paths" := List([])] == PathData([]);
    assert [] + EscapedAll(paths) == EscapedAll(paths);
    assert map[]["paths" := List(EscapedAll(paths))] == PathData(EscapedAll(paths));
  }

  lemma ParsedInPieces(source: string, text: string, rest: string)
    requires StartsWith(source, "---\n") && source[4..] == text + (CLOSING + rest)
    requires IndexOf(source, CLOSING, 4) == Some(4 + |text|)
    ensures ParseFrontmatter(source) ==
            var data := ParseLines(Split(text, '\n'), None, map[]);
            if data.None? then None else Some(Parsed(data.value, rest))
  {
    Drop(source, 4, text, CLOSING + rest);
    Drop(source, 4 + |text|, CLOSING, rest);
  }

  // The parser reads back what the renderer wrote: every path, as escaped, in
  // order, and the text below. It fails exactly when a path has a line
  // separator, which JSON does not escape.
  lemma FrontmatterRoundTrip(w: Wording, rule: Rule)
    ensures ParseFrontmatter(ClaudeRule(w, rule)) ==
            if AnySeparated(rule.claudePaths) then None
            else Some(Parsed(PathData(EscapedAll(rule.claudePaths)), Underneath(w, rule)))
  {
    var text := Join(FrontLines(rule.claudePaths), "\n");
    RuleFileOpens(w, rule);
    FrontIsUndashed(rule.claudePaths);
    ClosingFound(ClaudeRule(w, rule), 4, FrontLines(rule.claudePaths), Underneath(w, rule));
    ParsedInPieces(ClaudeRule(w, rule), text, Underneath(w, rule));
    LinesAreRead(rule.claudePaths);
  }

  // ---- Paths that were read have no separators ---------------------------------------

  lemma {:induction false} TrimStartKeeps(s: string)
    ensures forall c :: c in TrimStart(s) ==> c in s
  {
    if s != "" && IsSpace(s[0]) {
      TrimStartKeeps(s[1..]);
    }
  }

  lemma {:induction false} TrimEndKeeps(s: string)
    ensures forall c :: c in TrimEnd(s) ==> c in s
  {
    if s != "" && IsSpace(s[|s| - 1]) {
      TrimEndKeeps(s[..|s| - 1]);
    }
  }

  lemma ItemIsClean(line: string)
    requires ListItem(line).Some?
    ensures !Separated(Unquote(Trim(ListItem(line).value)))
  {
    var item := ListItem(line).value;
    TrimStartKeeps(item);
    TrimEndKeeps(TrimStart(item));
    forall c | c in Unquote(Trim(item)) ensures !Separator(c) {
      assert c in Trim(item) && c in item;
      var i :| 0 <= i < |item| && item[i] == c;
      assert !LineBreak(item[i]);
    }
  }

  predicate CleanItems(items: seq<string>) {
    forall x :: x in items ==> !Separated(x)
  }

  predicate Clean(data: map<string, Value>) {
    forall k :: k in data && data[k].List? ==> CleanItems(data[k].items)
  }

  lemma {:induction false} ParsedIsClean(lines: seq<string>, key: Option<string>, data: map<string, Value>)
    requires Clean(data) && ParseLines(lines, key, data).Some?
    ensures Clean(ParseLines(lines, key, data).value)
    decreases |lines|
  {
    if lines == [] {
    } else if Trim(lines[0]) == "" {
      ParsedIsClean(lines[1..], key, data);
    } else if ListItem(lines[0]).Some? && key.Some? {
      ItemIsClean(lines[0]);
      var items := data[key.value].items + [Unquote(Trim(ListItem(lines[0]).value))];
      ParsedIsClean(lines[1..], key, data[key.value := List(items)]);
    } else {
      var pair := KeyLine(lines[0]).value;
      var value := Trim(pair.1);
      ParsedIsClean(lines[1..], Some(pair.0), data[pair.0 := if value == "" then List([]) else Scalar(Unquote(value))]);
    }
  }

  lemma ParsedPathsAreClean(name: string, source: string)
    requires EndsWith(name, ".md") && ParseRule(name, source).Some?
    ensures !AnySeparated(ParseRule(name, source).value.claudePaths)
  {
    var parsed := ParseFrontmatter(source).value;
    var end := IndexOf(source, CLOSING, 4);
    if StartsWith(source, "---\n") {
      ParsedIsClean(Split(source[4..end.value], '\n'), None, map[]);
    }
    assert Clean(parsed.data);
  }

  // So every rule that was loaded has a file the parser accepts, with the same
  // paths as escaped.
  lemma LoadedRuleRoundTrips(w: Wording, name: string, source: string)
    requires EndsWith(name, ".md") && ParseRule(name, source).Some?
    ensures var rule := ParseRule(name, source).value;
            ParseFrontmatter(ClaudeRule(w, rule)) ==
              Some(Parsed(PathData(EscapedAll(rule.claudePaths)), Underneath(w, rule)))
  {
    ParsedPathsAreClean(name, source);
    FrontmatterRoundTrip(w, ParseRule(name, source).value);
  }
}
