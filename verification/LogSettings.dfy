// logging/config.go: the settings language of the loggers.
module LogSettings {
  import opened Text
  import opened Wrappers

  datatype Level = Debug | Info | Warn | Error

  datatype Config = Config(defaultLevel: Level, includeAll: bool, included: map<string, Option<Level>>,
                           levels: map<string, Option<Level>>, excluded: map<string, Option<Level>>)

  // parseLogLevel
  function ParseLevel(s: string): Option<Level> {
    var upper := seq(|s|, i requires 0 <= i < |s| => ToUpper(s[i]));
    if upper == "DEBUG" then Some(Debug)
    else if upper == "INFO" then Some(Info)
    else if upper == "WARN" then Some(Warn)
    else if upper == "ERROR" then Some(Error)
    else None
  }

  // unicode.IsSpace
  predicate GoSpace(c: char) {
    c == '\U{0085}' || (IsSpace(c) && c != '\U{FEFF}')
  }

  function TrimSpace(s: string): string {
    if s != "" && GoSpace(s[0]) then TrimSpace(s[1..])
    else if s != "" && GoSpace(s[|s| - 1]) then TrimSpace(s[..|s| - 1])
    else s
  }

  // ---- Tags --------------------------------------------------------------------

  datatype Tag = All(level: Option<Level>) | Exclude(name: string, level: Option<Level>)
               | Include(name: string, level: Option<Level>) | Bad

  // strings.SplitN(tag, ":", 2)
  function NameEnd(tag: string): (n: nat)
    ensures n <= |tag|
  {
    if tag == "" || tag[0] == ':' then 0 else 1 + NameEnd(tag[1..])
  }

  function Classify(name: string, level: Option<Level>): Tag {
    if name == "_all" then All(level)
    else if StartsWith(name, "-") then Exclude(name[1..], level)
    else Include(name, level)
  }

  function ParseTag(raw: string): Tag {
    var tag := TrimSpace(raw);
    var n := NameEnd(tag);
    if n == |tag| then Classify(tag, None) else
      var level := ParseLevel(tag[n + 1..]);
      if level.None? then Bad else Classify(tag[..n], level)
  }

  function TagsOf(settings: string): seq<Tag> {
    var parts := Split(settings, ',');
    seq(|parts|, i requires 0 <= i < |parts| => ParseTag(parts[i]))
  }

  // One turn of the loop; a level on a tag other than _all is kept beside the name.
  function Step(c: Config, tag: Tag): Config
    requires !tag.Bad?
  {
    match tag
    case All(level) => c.(includeAll := true, defaultLevel := if level.Some? then level.value else c.defaultLevel)
    case Exclude(name, level) => c.(excluded := c.excluded[name := level])
    case Include(name, level) => c.(included := c.included[name := level])
  }

  function Fold(c: Config, tags: seq<Tag>): Option<Config> {
    if tags == [] then Some(c) else
      var n := |tags| - 1;
      var before := Fold(c, tags[..n]);
      if before.None? || tags[n].Bad? then None else Some(Step(before.value, tags[n]))
  }

  function Empty(level: Level): Config {
    Config(level, false, map[], map[], map[])
  }

  function DefaultOf(defaultLevel: string): Option<Level> {
    ParseLevel(if defaultLevel == "" then "INFO" else defaultLevel)
  }

  // What the settings come to; None where they are rejected.
  function Parse(settings: string, defaultLevel: string): Option<Config> {
    var level := DefaultOf(defaultLevel);
    if level.None? then None else Fold(Empty(level.value), TagsOf(settings))
  }

  lemma {:induction false} BadStops(c: Config, tags: seq<Tag>, i: nat)
    requires i < |tags| && tags[i].Bad?
    ensures Fold(c, tags).None?
  {
    if i < |tags| - 1 {
      BadStops(c, tags[..|tags| - 1], i);
    }
  }

  lemma FoldNext(c: Config, settings: string, i: nat)
    requires i < |Split(settings, ',')|
    ensures var tags, tag := TagsOf(settings), ParseTag(Split(settings, ',')[i]);
            && |tags| == |Split(settings, ',')| && tags[i] == tag
            && Fold(c, tags[..i + 1]) ==
               if Fold(c, tags[..i]).None? || tag.Bad? then None else Some(Step(Fold(c, tags[..i]).value, tag))
  {
    var tags := TagsOf(settings);
    assert tags[..i + 1][..i] == tags[..i] && tags[..i + 1][i] == tags[i];
  }

  // NewConfig
  method NewConfig(settings: string, defaultLevel: string) returns (r: Option<Config>)
    ensures r == Parse(settings, defaultLevel)
  {
    var level := DefaultOf(defaultLevel);
    if level.None? {
      return None;
    }
    var c := Empty(level.value);
    var parts := Split(settings, ',');
    ghost var tags := TagsOf(settings);
    for i := 0 to |parts|
      invariant Fold(Empty(level.value), tags[..i]) == Some(c)
    {
      FoldNext(Empty(level.value), settings, i);
      var tag := ParseTag(parts[i]);
      if tag.Bad? {
        BadStops(Empty(level.value), tags, i);
        return None;
      }
      c := Step(c, tag);
    }
    assert tags[..|parts|] == tags;
    return Some(c);
  }

  // ---- Queries -----------------------------------------------------------------

  predicate IsIncluded(c: Config, tag: string) {
    tag in c.included || c.includeAll
  }

  predicate IsExcluded(c: Config, tag: string) {
    tag in c.excluded
  }

  predicate IsEnabled(c: Config, tag: string) {
    IsIncluded(c, tag) && !IsExcluded(c, tag)
  }

  function GetLevel(c: Config, tag: string): Level {
    if tag in c.levels && c.levels[tag].Some? then c.levels[tag].value else c.defaultLevel
  }

  // ---- What settings mean --------------------------------------------------------

  ghost predicate HasAll(tags: seq<Tag>) {
    exists t :: t in tags && t.All?
  }

  ghost predicate Includes(tags: seq<Tag>, name: string) {
    exists t :: t in tags && t.Include? && t.name == name
  }

  ghost predicate Excludes(tags: seq<Tag>, name: string) {
    exists t :: t in tags && t.Exclude? && t.name == name
  }

  // The last level given to _all, or else the default.
  function LastAll(tags: seq<Tag>, given: Level): Level {
    if tags == [] then given else
      var t := tags[|tags| - 1];
      if t.All? && t.level.Some? then t.level.value else LastAll(tags[..|tags| - 1], given)
  }

  // The level of the last inclusion of a name, if that has one.
  function LastLevel(tags: seq<Tag>, name: string): Option<Level> {
    if tags == [] then None else
      var t := tags[|tags| - 1];
      if t.Include? && t.name == name then t.level else LastLevel(tags[..|tags| - 1], name)
  }

  lemma {:induction false} FoldMeans(level: Level, tags: seq<Tag>, name: string)
    ensures Fold(Empty(level), tags).None? <==> Bad in tags
    ensures Fold(Empty(level), tags).Some? ==>
      var c := Fold(Empty(level), tags).value;
      && (c.includeAll <==> HasAll(tags))
      && (name in c.included <==> Includes(tags, name)) && (name in c.excluded <==> Excludes(tags, name))
      && c.defaultLevel == LastAll(tags, level) && c.levels == map[]
      && (name in c.included ==> c.included[name] == LastLevel(tags, name))
      && (name !in c.included ==> LastLevel(tags, name) == None)
  {
    if tags != [] {
      var init, last := tags[..|tags| - 1], tags[|tags| - 1];
      assert tags == init + [last];
      FoldMeans(level, init, name);
      MentionsSplit(init, last, name);
    }
  }

  lemma MentionsSplit(init: seq<Tag>, last: Tag, name: string)
    ensures Bad in init + [last] <==> Bad in init || last.Bad?
    ensures HasAll(init + [last]) <==> HasAll(init) || last.All?
    ensures Includes(init + [last], name) <==> Includes(init, name) || (last.Include? && last.name == name)
    ensures Excludes(init + [last], name) <==> Excludes(init, name) || (last.Exclude? && last.name == name)
  {
    assert forall t :: t in init + [last] <==> t in init || t == last;
    assert last in init + [last];
  }

  // A name is enabled exactly when some tag includes it, or all names, and none
  // excludes it: exclusion beats inclusion in any order.
  lemma EnabledExactly(settings: string, defaultLevel: string, name: string)
    requires Parse(settings, defaultLevel).Some?
    ensures var tags := TagsOf(settings);
            IsEnabled(Parse(settings, defaultLevel).value, name) <==>
              (Includes(tags, name) || HasAll(tags)) && !Excludes(tags, name)
  {
    FoldMeans(DefaultOf(defaultLevel).value, TagsOf(settings), name);
  }

  // The order of the tags does not matter to what is accepted or enabled.
  lemma TagOrderDoesNotMatter(a: string, b: string, defaultLevel: string, name: string)
    requires multiset(TagsOf(a)) == multiset(TagsOf(b))
    ensures Parse(a, defaultLevel).Some? <==> Parse(b, defaultLevel).Some?
    ensures Parse(a, defaultLevel).Some? ==>
      (IsEnabled(Parse(a, defaultLevel).value, name) <==> IsEnabled(Parse(b, defaultLevel).value, name))
  {
    var s, t := TagsOf(a), TagsOf(b);
    forall x ensures x in s <==> x in t {
      assert x in s <==> x in multiset(s);
      assert x in t <==> x in multiset(t);
    }
    if DefaultOf(defaultLevel).Some? {
      FoldMeans(DefaultOf(defaultLevel).value, s, name);
      FoldMeans(DefaultOf(defaultLevel).value, t, name);
    }
  }

  // The level logging.go documents: a name's own, or else the default in force.
  function DocumentedLevel(tags: seq<Tag>, given: Level, name: string): Level {
    if LastLevel(tags, name).Some? then LastLevel(tags, name).value else LastAll(tags, given)
  }

  ghost predicate AsDocumented(c: Config, tags: seq<Tag>, given: Level) {
    forall name :: GetLevel(c, name) == DocumentedLevel(tags, given, name)
  }

  // Each level on a name repeats the default the settings put in force.
  ghost predicate LevelsRepeat(tags: seq<Tag>, given: Level) {
    forall name :: LevelRepeats(tags, given, name)
  }

  predicate LevelRepeats(tags: seq<Tag>, given: Level, name: string) {
    LastLevel(tags, name).Some? ==> LastLevel(tags, name).value == LastAll(tags, given)
  }

  // Levels on names take no effect, so the documentation holds exactly of
  // settings whose levels on names change nothing.
  lemma LevelsAreHonouredExactly(settings: string, defaultLevel: string)
    requires Parse(settings, defaultLevel).Some?
    ensures var c, tags, given := Parse(settings, defaultLevel).value, TagsOf(settings), DefaultOf(defaultLevel).value;
            AsDocumented(c, tags, given) <==> LevelsRepeat(tags, given)
  {
    var c, tags, given := Parse(settings, defaultLevel).value, TagsOf(settings), DefaultOf(defaultLevel).value;
    forall name ensures GetLevel(c, name) == DocumentedLevel(tags, given, name) <==> LevelRepeats(tags, given, name) {
      FoldMeans(given, tags, name);
    }
    if AsDocumented(c, tags, given) {
      forall name ensures LevelRepeats(tags, given, name) {
        assert GetLevel(c, name) == DocumentedLevel(tags, given, name);
      }
    }
    if LevelsRepeat(tags, given) {
      forall name ensures GetLevel(c, name) == DocumentedLevel(tags, given, name) {
        assert LevelRepeats(tags, given, name);
      }
    }
  }

  // All names have the level of the last _all that has one, or else the default.
  lemma EveryNameHasTheDefault(settings: string, defaultLevel: string, name: string)
    requires Parse(settings, defaultLevel).Some?
    ensures GetLevel(Parse(settings, defaultLevel).value, name) ==
            LastAll(TagsOf(settings), DefaultOf(defaultLevel).value)
  {
    FoldMeans(DefaultOf(defaultLevel).value, TagsOf(settings), name);
  }

  lemma DebugParses()
    ensures ParseLevel("debug") == Some(Debug)
  {
    var upper := seq(|"debug"|, i requires 0 <= i < |"debug"| => ToUpper("debug"[i]));
    assert upper == "DEBUG";
  }

  lemma DebugTag()
    ensures ParseTag("db:debug") == Include("db", Some(Debug))
  {
    var tag := "db:debug";
    assert NameEnd(tag[2..]) == 0;
    assert tag[1..][1..] == tag[2..];
    assert tag[3..] == "debug" && tag[..2] == "db";
    DebugParses();
  }

  // db:debug leaves the logger db at the default.
  lemma LevelExample(defaultLevel: string)
    requires DefaultOf(defaultLevel).Some? && DefaultOf(defaultLevel) != Some(Debug)
    ensures var settings := "db:debug";
            Parse(settings, defaultLevel).Some? &&
            var c := Parse(settings, defaultLevel).value;
            && GetLevel(c, "db") == DefaultOf(defaultLevel).value
            && DocumentedLevel(TagsOf(settings), DefaultOf(defaultLevel).value, "db") == Debug
  {
    ExampleTags();
    OneInclude(DefaultOf(defaultLevel).value, "db", Debug);
  }

  lemma ExampleTags()
    ensures TagsOf("db:debug") == [Include("db", Some(Debug))]
  {
    SplitOfWord("db:debug", "", ',');
    DebugTag();
  }

  lemma OneInclude(given: Level, name: string, own: Level)
    ensures var tags := [Include(name, Some(own))];
            Fold(Empty(given), tags).Some? && LastLevel(tags, name) == Some(own) &&
            GetLevel(Fold(Empty(given), tags).value, name) == given
  {
    var tags := [Include(name, Some(own))];
    assert tags[..0] == [];
  }
}
