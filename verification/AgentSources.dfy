// The rule sources of bin/sync-agent-config as they are written, and what is
// read out of them.
module AgentSources {
  import opened Text
  import opened AgentConfig
  import opened AgentContent
  import opened AgentFrontmatter
  import opened Wrappers

  // ---- Values as written ------------------------------------------------------------

  // A value by itself, or in quotes of either kind.
  datatype Spelling = Bare(value: string) | Quote(value: string, mark: char)

  predicate Trimmed(s: string) {
    s != "" ==> !IsSpace(s[0]) && !IsSpace(s[|s| - 1])
  }

  predicate Mark(c: char) {
    c == '"' || c == '\''
  }

  // A bare value has no space around it, and does not open and close with one
  // kind of quote.
  predicate Proper(v: Spelling) {
    && OneLine(v.value)
    && match v
       case Bare(t) => Trimmed(t) && (t != "" ==> !(Mark(t[0]) && t[|t| - 1] == t[0]))
       case Quote(_, mark) => Mark(mark)
  }

  function Spelt(v: Spelling): string {
    match v
    case Bare(t) => t
    case Quote(t, mark) => [mark] + t + [mark]
  }

  lemma SpeltIsRead(v: Spelling)
    requires Proper(v)
    ensures Unquote(Spelt(v)) == v.value && Trimmed(Spelt(v)) && OneLine(Spelt(v))
  {
    var s := Spelt(v);
    if v.Quote? {
      assert s[0] == v.mark && s[|s| - 1] == v.mark && s[1..|s| - 1] == v.value;
    }
  }

  // A quote alone is read as nothing.
  lemma LoneMark(mark: char)
    ensures Unquote([mark]) == if Mark(mark) then "" else [mark]
  {
  }

  lemma TrimmedStays(s: string)
    requires Trimmed(s)
    ensures Trim(s) == s && TrimStart(s) == s && TrimStart(" " + s) == s
  {
    assert (" " + s)[1..] == s;
  }

  lemma NoBreakInside(s: string)
    requires OneLine(s)
    ensures !(exists i :: 0 <= i < |s| && LineBreak(s[i]))
  {
    assert forall i :: 0 <= i < |s| ==> s[i] in s;
  }

  // ---- Lines --------------------------------------------------------------------------

  function ItemText(v: Spelling): string {
    "  - " + Spelt(v)
  }

  function ItemTexts(vs: seq<Spelling>): seq<string> {
    if vs == [] then [] else [ItemText(vs[0])] + ItemTexts(vs[1..])
  }

  function ValuesOf(vs: seq<Spelling>): seq<string> {
    if vs == [] then [] else [vs[0].value] + ValuesOf(vs[1..])
  }

  predicate AllProper(vs: seq<Spelling>) {
    forall v :: v in vs ==> Proper(v)
  }

  lemma Unindented(item: string)
    requires item != "" && !IsSpace(item[0])
    ensures TrimStart("  " + item) == item
  {
    assert (" " + item)[1..] == item && TrimStart(" " + item) == item;
    assert ("  " + item)[1..] == " " + item && TrimStart("  " + item) == item;
  }

  lemma ItemTextIsRead(v: Spelling)
    requires Proper(v)
    ensures Trim(ItemText(v)) != "" && ListItem(ItemText(v)) == Some(Spelt(v))
    ensures Unquote(Trim(Spelt(v))) == v.value
  {
    var s := Spelt(v);
    SpeltIsRead(v);
    TrimmedStays(s);
    NoBreakInside(s);
    var item := "- " + s;
    assert ItemText(v) == "  " + item;
    assert item[0] == '-' && item[1..] == " " + s;
    Unindented(item);
    DashIsKept(item);
  }

  lemma {:induction false} DashIsKept(s: string)
    requires s != "" && s[0] == '-'
    ensures TrimEnd(s) != ""
  {
    if IsSpace(s[|s| - 1]) {
      assert s[..|s| - 1][0] == '-' by { assert |s| > 1; }
      DashIsKept(s[..|s| - 1]);
    }
  }

  // Items below a key are read in order, and the lines below them come next.
  lemma {:induction false} ItemsThen(vs: seq<Spelling>, rest: seq<string>, key: string, data: map<string, Value>,
                                     done: seq<string>)
    requires AllProper(vs)
    ensures ParseLines(ItemTexts(vs) + rest, Some(key), data[key := List(done)]) ==
            ParseLines(rest, Some(key), data[key := List(done + ValuesOf(vs))])
    decreases |vs|
  {
    if vs == [] {
      assert ItemTexts(vs) + rest == rest && done + [] == done;
    } else {
      var v, tail := vs[0], vs[1..];
      ItemTextIsRead(v);
      ItemGrows(ItemText(v), Spelt(v), ItemTexts(tail) + rest, key, data, done);
      Regroup([ItemText(v)], ItemTexts(tail), rest);
      ItemsThen(tail, rest, key, data, done + [v.value]);
      Regroup(done, [v.value], ValuesOf(tail));
    }
  }

  predicate KeyChar(c: char) {
    Letter(c) || '0' <= c <= '9' || c == '_' || c == '-'
  }

  // A key: a letter, then letters, digits, dashes and underscores.
  predicate Word(key: string) {
    key != "" && Letter(key[0]) && forall c :: c in key ==> KeyChar(c)
  }

  lemma {:induction false} KeyEnds(key: string, rest: string)
    requires (forall c :: c in key ==> KeyChar(c)) && rest != "" && rest[0] == ':'
    ensures KeyLength(key + rest) == |key|
  {
    if key == "" {
      assert key + rest == rest;
    } else {
      assert (key + rest)[1..] == key[1..] + rest && key[0] in key;
      assert forall c :: c in key[1..] ==> c in key;
      KeyEnds(key[1..], rest);
    }
  }

  lemma {:induction false} LetterIsKept(s: string)
    requires s != "" && Letter(s[0])
    ensures TrimEnd(s) != ""
  {
    if IsSpace(s[|s| - 1]) {
      assert |s| > 1 && s[..|s| - 1][0] == s[0];
      LetterIsKept(s[..|s| - 1]);
    }
  }

  lemma KeyTextIsRead(key: string, after: string, value: string)
    requires Word(key) && OneLine(value) && TrimStart(after) == value
    ensures var line := key + (":" + after);
            Trim(line) != "" && ListItem(line) == None && KeyLine(line) == Some((key, value))
  {
    var line := key + (":" + after);
    assert line[0] == key[0] && key[0] in key;
    assert !IsSpace(line[0]) && line[0] != '-';
    LetterIsKept(line);
    KeyEnds(key, ":" + after);
    assert line[|key| + 1..] == after && line[..|key|] == key;
    NoBreakInside(value);
  }

  // A key's line sets what it is read as: its value, or an empty list.
  lemma KeySets(line: string, key: string, value: string, rest: seq<string>, above: Option<string>,
                data: map<string, Value>)
    requires Trim(line) != "" && ListItem(line) == None && KeyLine(line) == Some((key, value))
    ensures ParseLines([line] + rest, above, data) ==
            ParseLines(rest, Some(key),
                       data[key := if Trim(value) == "" then List([]) else Scalar(Unquote(Trim(value)))])
  {
    assert ([line] + rest)[0] == line && ([line] + rest)[1..] == rest;
  }

  // ---- A rule source -------------------------------------------------------------------

  // The frontmatter a rule may have, in this order, and its body.
  datatype Source = Source(title: Option<Spelling>, paths: Option<seq<Spelling>>, claudePaths: Option<seq<Spelling>>,
                           body: string)

  predicate WellWritten(s: Source) {
    && (s.title.Some? ==> Proper(s.title.value) && Spelt(s.title.value) != "")
    && (s.paths.Some? ==> AllProper(s.paths.value))
    && (s.claudePaths.Some? ==> AllProper(s.claudePaths.value))
    && (s.title.Some? || s.paths.Some? || s.claudePaths.Some?)
  }

  function TitleLines(title: Option<Spelling>): seq<string> {
    if title.None? then [] else ["title: " + Spelt(title.value)]
  }

  function ListLines(key: string, vs: Option<seq<Spelling>>): seq<string> {
    if vs.None? then [] else [key + ":"] + ItemTexts(vs.value)
  }

  function Front(s: Source): seq<string> {
    TitleLines(s.title) + (ListLines("paths", s.paths) + ListLines("claudePaths", s.claudePaths))
  }

  function SourceText(s: Source): string {
    "---\n" + (Join(Front(s), "\n") + (CLOSING + s.body))
  }

  function WithTitle(data: map<string, Value>, title: Option<Spelling>): map<string, Value> {
    if title.None? then data else data["title" := Scalar(title.value.value)]
  }

  function WithList(data: map<string, Value>, key: string, vs: Option<seq<Spelling>>): map<string, Value> {
    if vs.None? then data else data[key := List(ValuesOf(vs.value))]
  }

  function DataOf(s: Source): map<string, Value> {
    WithList(WithList(WithTitle(map[], s.title), "paths", s.paths), "claudePaths", s.claudePaths)
  }

  lemma TitleTextIsRead(s: string)
    requires Trimmed(s) && OneLine(s)
    ensures var line := "title: " + s;
            Trim(line) != "" && ListItem(line) == None && KeyLine(line) == Some(("title", s))
  {
    TrimmedStays(s);
    assert Word("title");
    KeyTextIsRead("title", " " + s, s);
    assert "title: " == "title" + ": " && ": " == ":" + " ";
    Regroup("title", ": ", s);
    Regroup(":", " ", s);
  }

  lemma TitleIsRead(title: Option<Spelling>, rest: seq<string>, data: map<string, Value>)
    returns (above: Option<string>)
    requires title.Some? ==> Proper(title.value) && Spelt(title.value) != ""
    ensures ParseLines(TitleLines(title) + rest, None, data) == ParseLines(rest, above, WithTitle(data, title))
  {
    above := if title.None? then None else Some("title");
    if title.None? {
      assert TitleLines(title) + rest == rest;
    } else {
      var s := Spelt(title.value);
      SpeltIsRead(title.value);
      TrimmedStays(s);
      TitleTextIsRead(s);
      KeySets("title: " + s, "title", s, rest, None, data);
    }
  }

  lemma ListIsRead(key: string, vs: Option<seq<Spelling>>, rest: seq<string>, above: Option<string>,
                   data: map<string, Value>)
    returns (below: Option<string>)
    requires Word(key) && (vs.Some? ==> AllProper(vs.value))
    ensures ParseLines(ListLines(key, vs) + rest, above, data) == ParseLines(rest, below, WithList(data, key, vs))
  {
    below := if vs.None? then above else Some(key);
    if vs.None? {
      assert ListLines(key, vs) + rest == rest;
    } else {
      var items := ItemTexts(vs.value);
      KeyTextIsRead(key, "", "");
      assert key + (":" + "") == key + ":";
      Regroup([key + ":"], items, rest);
      KeySets(key + ":", key, "", items + rest, above, data);
      ItemsThen(vs.value, rest, key, data, []);
      assert [] + ValuesOf(vs.value) == ValuesOf(vs.value);
    }
  }

  lemma FrontIsRead(s: Source)
    requires WellWritten(s)
    ensures ParseLines(Front(s), None, map[]) == Some(DataOf(s))
  {
    var last := ListLines("claudePaths", s.claudePaths);
    var more := ListLines("paths", s.paths) + last;
    assert last + [] == last;
    var above := TitleIsRead(s.title, more, map[]);
    assert Word("paths") && Word("claudePaths");
    above := ListIsRead("paths", s.paths, last, above, WithTitle(map[], s.title));
    var data := WithList(WithTitle(map[], s.title), "paths", s.paths);
    above := ListIsRead("claudePaths", s.claudePaths, [], above, data);
  }

  // ---- From the text -------------------------------------------------------------------

  lemma LineIsWhole(l: string, r: string)
    requires OneLine(r) && '\n' !in l
    ensures '\n' !in l + r
  {
  }

  lemma {:induction false} ItemTextsAreUndashed(vs: seq<Spelling>)
    requires AllProper(vs)
    ensures Undashed(ItemTexts(vs))
  {
    if vs != [] {
      SpeltIsRead(vs[0]);
      LineIsWhole("  - ", Spelt(vs[0]));
      assert ItemText(vs[0])[0] == ' ';
      ItemTextsAreUndashed(vs[1..]);
    }
  }

  lemma ListLinesAreUndashed(key: string, vs: Option<seq<Spelling>>)
    requires Word(key) && (vs.Some? ==> AllProper(vs.value))
    ensures Undashed(ListLines(key, vs))
  {
    if vs.Some? {
      assert (key + ":")[0] == key[0] && key[0] in key;
      assert '\n' !in key + ":";
      ItemTextsAreUndashed(vs.value);
    }
  }

  lemma FrontIsWhole(s: Source)
    requires WellWritten(s)
    ensures Front(s) != [] && Undashed(Front(s))
  {
    assert Word("paths") && Word("claudePaths");
    ListLinesAreUndashed("paths", s.paths);
    ListLinesAreUndashed("claudePaths", s.claudePaths);
    if s.title.Some? {
      SpeltIsRead(s.title.value);
      LineIsWhole("title: ", Spelt(s.title.value));
      assert ("title: " + Spelt(s.title.value))[0] == 't';
    }
  }

  lemma SourceOpens(s: Source)
    ensures StartsWith(SourceText(s), "---\n") && SourceText(s)[4..] == Join(Front(s), "\n") + (CLOSING + s.body)
  {
  }

  // Frontmatter of such lines ends where they do, and splits back into them.
  lemma LinesAreFound(text: string, lines: seq<string>, rest: string)
    requires lines != [] && Undashed(lines)
    requires 4 <= |text| && text[4..] == Join(lines, "\n") + (CLOSING + rest)
    ensures IndexOf(text, CLOSING, 4) == Some(4 + |Join(lines, "\n")|)
  {
    OpensUndashed(lines, rest);
    ClosingFound(text, 4, lines, rest);
  }

  lemma LinesSplit(lines: seq<string>)
    requires lines != [] && Undashed(lines)
    ensures Split(Join(lines, "\n"), '\n') == lines
  {
    SplitOfJoin(lines, '\n');
  }

  lemma SourceIsParsed(s: Source)
    requires WellWritten(s)
    ensures ParseFrontmatter(SourceText(s)) == Some(Parsed(DataOf(s), s.body))
  {
    SourceOpens(s);
    FrontIsWhole(s);
    LinesAreFound(SourceText(s), Front(s), s.body);
    LinesSplit(Front(s));
    ParsedInPieces(SourceText(s), Join(Front(s), "\n"), s.body);
    FrontIsRead(s);
  }

  // What the rule of a source is: its paths are claudePaths if that is there, else
  // paths; its title the one given, or else the file's name; its body normalised.
  // Without a path there is no rule.
  lemma SourceIsRead(name: string, s: Source)
    requires WellWritten(s) && EndsWith(name, ".md")
    ensures var listed := if s.claudePaths.Some? then s.claudePaths else s.paths;
            ParseRule(name, SourceText(s)) ==
              if listed.None? || listed.value == [] then None
              else Some(Rule(NormalizeBody(s.body), ValuesOf(listed.value), name,
                             if s.title.Some? && s.title.value.value != "" then s.title.value.value
                             else name[..|name| - 3]))
  {
    SourceIsParsed(s);
    DataSays(s);
  }

  lemma DataSays(s: Source)
    ensures Truthy(DataOf(s), "title") ==
            if s.title.Some? && s.title.value.value != "" then Some(Scalar(s.title.value.value)) else None
    ensures Truthy(DataOf(s), "claudePaths") ==
            if s.claudePaths.Some? then Some(List(ValuesOf(s.claudePaths.value))) else None
    ensures Truthy(DataOf(s), "paths") == if s.paths.Some? then Some(List(ValuesOf(s.paths.value))) else None
    ensures forall vs: seq<Spelling> :: ValuesOf(vs) == [] <==> vs == []
  {
    assert "title"[0] != "paths"[0] && "title"[0] != "claudePaths"[0] && "paths"[0] != "claudePaths"[0];
  }
}
