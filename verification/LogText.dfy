// The settings language as it is written (logging/config.go): what each form of
// tag is read as.
module LogText {
  import opened LogSettings
  import opened Text
  import opened Wrappers

  // ---- Levels --------------------------------------------------------------------

  function Word(level: Level): string {
    match level
    case Debug => "DEBUG"
    case Info => "INFO"
    case Warn => "WARN"
    case Error => "ERROR"
  }

  predicate EitherCase(c: char, upper: char) {
    c == upper || ('A' <= upper <= 'Z' && c as int == upper as int + 32)
  }

  // The word, each letter in either case.
  predicate Spells(s: string, word: string) {
    |s| == |word| && forall i :: 0 <= i < |s| ==> EitherCase(s[i], word[i])
  }

  lemma UpperSpells(s: string, word: string)
    requires forall i :: 0 <= i < |word| ==> 'A' <= word[i] <= 'Z'
    ensures seq(|s|, i requires 0 <= i < |s| => ToUpper(s[i])) == word <==> Spells(s, word)
  {
    var upper := seq(|s|, i requires 0 <= i < |s| => ToUpper(s[i]));
    if upper == word {
      forall i | 0 <= i < |s| ensures EitherCase(s[i], word[i]) {
        assert ToUpper(s[i]) == upper[i] == word[i];
      }
    }
    if Spells(s, word) {
      forall i | 0 <= i < |s| ensures upper[i] == word[i] {
        assert EitherCase(s[i], word[i]);
      }
    }
  }

  lemma LevelsDiffer()
    ensures forall l, m :: Word(l) == Word(m) ==> l == m
  {
    assert Word(Debug)[0] == 'D' && Word(Info)[0] == 'I' && Word(Warn)[0] == 'W' && Word(Error)[0] == 'E';
  }

  // A level is read exactly where its name is written, in either case.
  lemma LevelExactly(s: string, level: Level)
    ensures ParseLevel(s) == Some(level) <==> Spells(s, Word(level))
  {
    UpperSpells(s, "DEBUG");
    UpperSpells(s, "INFO");
    UpperSpells(s, "WARN");
    UpperSpells(s, "ERROR");
    LevelsDiffer();
  }

  // ---- Tags ----------------------------------------------------------------------

  datatype Kind = Everything | Excluding(name: string) | Including(name: string)

  // A tag as written, with the space around it: name, -name or _all, and what
  // follows the colon if there is one.
  datatype Form = Form(kind: Kind, spelling: Option<string>, lead: string, trail: string)

  // Go's spaces are the characters with Unicode's White_Space property.
  lemma GoSpacesExactly(c: char)
    ensures GoSpace(c) <==>
              || c in "\t\n\U{000B}\U{000C}\r \U{0085}\U{00A0}\U{1680}\U{2028}\U{2029}\U{202F}\U{205F}\U{3000}"
              || '\U{2000}' <= c <= '\U{200A}'
  {
    var spaces := "\t\n\U{000B}\U{000C}\r \U{0085}\U{00A0}\U{1680}\U{2028}\U{2029}\U{202F}\U{205F}\U{3000}";
    assert spaces[0] == '\t' && spaces[1] == '\n' && spaces[2] == '\U{000B}' && spaces[3] == '\U{000C}';
    assert spaces[4] == '\r' && spaces[5] == ' ' && spaces[6] == '\U{0085}' && spaces[7] == '\U{00A0}';
    assert spaces[8] == '\U{1680}' && spaces[9] == '\U{2028}' && spaces[10] == '\U{2029}';
    assert spaces[11] == '\U{202F}' && spaces[12] == '\U{205F}' && spaces[13] == '\U{3000}';
  }

  predicate AllGoSpace(s: string) {
    forall c :: c in s ==> GoSpace(c)
  }

  predicate Trimmed(s: string) {
    s != "" ==> !GoSpace(s[0]) && !GoSpace(s[|s| - 1])
  }

  predicate PlainName(name: string) {
    ',' !in name && ':' !in name && Trimmed(name)
  }

  // A name to include has no dash in front and is not the word for all names.
  predicate Proper(f: Form) {
    && AllGoSpace(f.lead) && AllGoSpace(f.trail)
    && (match f.kind
        case Everything => true
        case Excluding(name) => PlainName(name)
        case Including(name) => PlainName(name) && name != "_all" && (name != "" ==> name[0] != '-'))
    && (f.spelling.Some? ==> ',' !in f.spelling.value && Trimmed(f.spelling.value))
  }

  function NameText(k: Kind): string {
    match k
    case Everything => "_all"
    case Excluding(name) => "-" + name
    case Including(name) => name
  }

  function LevelText(spelling: Option<string>): string {
    if spelling.None? then "" else ":" + spelling.value
  }

  function Core(f: Form): string {
    NameText(f.kind) + LevelText(f.spelling)
  }

  function FormText(f: Form): string {
    f.lead + Core(f) + f.trail
  }

  function Tagged(k: Kind, level: Option<Level>): Tag {
    match k
    case Everything => All(level)
    case Excluding(name) => Exclude(name, level)
    case Including(name) => Include(name, level)
  }

  // The level a text spells.
  function Spelt(s: string): Option<Level> {
    if Spells(s, Word(Debug)) then Some(Debug)
    else if Spells(s, Word(Info)) then Some(Info)
    else if Spells(s, Word(Warn)) then Some(Warn)
    else if Spells(s, Word(Error)) then Some(Error)
    else None
  }

  // A colon is followed by something that is no level.
  predicate Misspelt(f: Form) {
    f.spelling.Some? && Spelt(f.spelling.value).None?
  }

  // What a tag so written means.
  function Meaning(f: Form): Tag {
    if f.spelling.None? then Tagged(f.kind, None)
    else if Misspelt(f) then Bad
    else Tagged(f.kind, Spelt(f.spelling.value))
  }

  // ---- Reading one tag ----------------------------------------------------------------

  lemma {:induction false} TrimLead(lead: string, s: string)
    requires AllGoSpace(lead)
    ensures TrimSpace(lead + s) == TrimSpace(s)
  {
    if lead == "" {
      assert lead + s == s;
    } else {
      assert lead[0] in lead;
      assert (lead + s)[1..] == lead[1..] + s;
      TrimLead(lead[1..], s);
    }
  }

  lemma {:induction false} TrimTrail(s: string, trail: string)
    requires AllGoSpace(trail) && Trimmed(s) && s != ""
    ensures TrimSpace(s + trail) == s
  {
    if trail == "" {
      assert s + trail == s;
    } else {
      var init := trail[..|trail| - 1];
      assert trail[|trail| - 1] in trail;
      assert (s + trail)[..|s + trail| - 1] == s + init && (s + trail)[0] == s[0];
      TrimTrail(s, init);
    }
  }

  lemma TrimmedCore(core: string, lead: string, trail: string)
    requires AllGoSpace(lead) && AllGoSpace(trail) && Trimmed(core)
    ensures TrimSpace(lead + core + trail) == core
  {
    Regroup(lead, core, trail);
    TrimLead(lead, core + trail);
    if core == "" {
      assert core + trail == trail && trail == trail + "";
      TrimLead(trail, "");
    } else {
      TrimTrail(core, trail);
    }
  }

  lemma CoreIsTrimmed(f: Form)
    requires Proper(f)
    ensures Trimmed(Core(f))
  {
    assert !GoSpace(':') && !GoSpace('-') && !GoSpace('_') && !GoSpace('l');
    var name, level := NameText(f.kind), LevelText(f.spelling);
    assert Trimmed(name) by {
      if f.kind.Excluding? && f.kind.name != "" {
        assert name[|name| - 1] == f.kind.name[|f.kind.name| - 1];
      }
    }
    assert Trimmed(level);
    if name != "" { assert Core(f)[0] == name[0]; }
    if level != "" { assert Core(f)[|Core(f)| - 1] == level[|level| - 1]; }
  }

  lemma {:induction false} NameEndsAt(name: string, rest: string)
    requires ':' !in name && (rest == "" || rest[0] == ':')
    ensures NameEnd(name + rest) == |name|
  {
    if name == "" {
      assert name + rest == rest;
    } else {
      assert (name + rest)[1..] == name[1..] + rest;
      NameEndsAt(name[1..], rest);
    }
  }

  lemma NameHasNoColon(f: Form)
    requires Proper(f)
    ensures ':' !in NameText(f.kind) && ',' !in NameText(f.kind)
  {
  }

  lemma Classified(f: Form, level: Option<Level>)
    requires Proper(f)
    ensures Classify(NameText(f.kind), level) == Tagged(f.kind, level)
  {
    var name := NameText(f.kind);
    if f.kind.Excluding? {
      assert name[0] == '-' && name[1..] == f.kind.name;
    } else if f.kind.Including? && name != "" {
      assert name[0] == name[..1][0] && "-"[0] == '-';
    }
  }

  lemma LevelIsSpelt(s: string)
    ensures ParseLevel(s) == Spelt(s)
  {
    LevelExactly(s, Debug);
    LevelExactly(s, Info);
    LevelExactly(s, Warn);
    LevelExactly(s, Error);
  }

  // Each form of tag is read as what it means.
  lemma TagIsRead(f: Form)
    requires Proper(f)
    ensures ParseTag(FormText(f)) == Meaning(f)
  {
    var name, level := NameText(f.kind), LevelText(f.spelling);
    CoreIsTrimmed(f);
    TrimmedCore(Core(f), f.lead, f.trail);
    NameHasNoColon(f);
    NameEndsAt(name, level);
    assert (name + level)[..|name|] == name;
    if f.spelling.None? {
      assert name + level == name;
      Classified(f, None);
    } else {
      assert (name + level)[|name| + 1..] == f.spelling.value;
      LevelIsSpelt(f.spelling.value);
      Classified(f, Spelt(f.spelling.value));
    }
  }

  // ---- Reading settings ---------------------------------------------------------------

  function FormTexts(forms: seq<Form>): seq<string> {
    seq(|forms|, i requires 0 <= i < |forms| => FormText(forms[i]))
  }

  function Settings(forms: seq<Form>): string {
    Join(FormTexts(forms), ",")
  }

  predicate AllProper(forms: seq<Form>) {
    forall i :: 0 <= i < |forms| ==> Proper(forms[i])
  }

  lemma FormHasNoComma(f: Form)
    requires Proper(f)
    ensures ',' !in FormText(f)
  {
    NameHasNoColon(f);
    assert !GoSpace(',');
  }

  function Meanings(forms: seq<Form>): seq<Tag> {
    seq(|forms|, i requires 0 <= i < |forms| => Meaning(forms[i]))
  }

  // Settings written as such tags, joined by commas, are read as those tags.
  lemma SettingsAreRead(forms: seq<Form>)
    requires forms != [] && AllProper(forms)
    ensures TagsOf(Settings(forms)) == Meanings(forms)
  {
    var texts := FormTexts(forms);
    forall t | t in texts ensures ',' !in t {
      var i :| 0 <= i < |texts| && texts[i] == t;
      FormHasNoComma(forms[i]);
    }
    SplitOfJoin(texts, ',');
    assert [','] == ",";
    forall i | 0 <= i < |forms| ensures ParseTag(texts[i]) == Meaning(forms[i]) {
      TagIsRead(forms[i]);
    }
  }

  predicate SomeMisspelt(forms: seq<Form>) {
    exists f :: f in forms && Misspelt(f)
  }

  predicate SomeIncludes(forms: seq<Form>, name: string) {
    exists f :: f in forms && (f.kind == Including(name) || f.kind == Everything)
  }

  predicate SomeExcludes(forms: seq<Form>, name: string) {
    exists f :: f in forms && f.kind == Excluding(name)
  }

  lemma MeaningIn(forms: seq<Form>, t: Tag)
    ensures t in Meanings(forms) <==> exists f :: f in forms && Meaning(f) == t
  {
    var tags := Meanings(forms);
    if t in tags {
      var i :| 0 <= i < |tags| && tags[i] == t;
      assert forms[i] in forms;
    }
    if f :| f in forms && Meaning(f) == t {
      var i :| 0 <= i < |forms| && forms[i] == f;
      assert tags[i] == t;
    }
  }

  lemma MisspeltExactly(forms: seq<Form>)
    ensures Bad in Meanings(forms) <==> SomeMisspelt(forms)
  {
    MeaningIn(forms, Bad);
  }

  lemma IncludedExactly(forms: seq<Form>, name: string)
    requires !SomeMisspelt(forms)
    ensures Includes(Meanings(forms), name) || HasAll(Meanings(forms)) <==> SomeIncludes(forms, name)
  {
    var tags := Meanings(forms);
    if t :| t in tags && ((t.Include? && t.name == name) || t.All?) {
      MeaningIn(forms, t);
    }
    if f :| f in forms && (f.kind == Including(name) || f.kind == Everything) {
      MeaningIn(forms, Meaning(f));
      assert Meaning(f) in tags;
    }
  }

  lemma ExcludedExactly(forms: seq<Form>, name: string)
    requires !SomeMisspelt(forms)
    ensures Excludes(Meanings(forms), name) <==> SomeExcludes(forms, name)
  {
    var tags := Meanings(forms);
    if t :| t in tags && t.Exclude? && t.name == name {
      MeaningIn(forms, t);
    }
    if f :| f in forms && f.kind == Excluding(name) {
      MeaningIn(forms, Meaning(f));
      assert Meaning(f) in tags;
    }
  }

  // As written: settings are rejected exactly when a colon is followed by no
  // level, and a name is enabled exactly when a tag names it, or all, and none
  // has it after a dash.
  lemma WrittenSettings(forms: seq<Form>, defaultLevel: string, name: string)
    requires forms != [] && AllProper(forms) && DefaultOf(defaultLevel).Some?
    ensures Parse(Settings(forms), defaultLevel).None? <==> SomeMisspelt(forms)
    ensures !SomeMisspelt(forms) ==>
              (IsEnabled(Parse(Settings(forms), defaultLevel).value, name) <==>
                 SomeIncludes(forms, name) && !SomeExcludes(forms, name))
  {
    SettingsAreRead(forms);
    MisspeltExactly(forms);
    FoldMeans(DefaultOf(defaultLevel).value, TagsOf(Settings(forms)), name);
    if !SomeMisspelt(forms) {
      IncludedExactly(forms, name);
      ExcludedExactly(forms, name);
      EnabledExactly(Settings(forms), defaultLevel, name);
    }
  }

  // The default level is INFO where none is given, and else what is spelt.
  lemma DefaultExactly(defaultLevel: string, level: Level)
    ensures DefaultOf(defaultLevel) == Some(level) <==>
            if defaultLevel == "" then level == Info else Spells(defaultLevel, Word(level))
  {
    LevelExactly(if defaultLevel == "" then "INFO" else defaultLevel, level);
    LevelsDiffer();
    if defaultLevel == "" {
      LevelExactly("INFO", Info);
      assert Spells("INFO", "INFO");
    }
  }

  lemma ExampleText()
    ensures Settings([Form(Everything, None, "", ""), Form(Excluding("db"), None, "", "")]) == "_all,-db"
  {
    var forms := [Form(Everything, None, "", ""), Form(Excluding("db"), None, "", "")];
    assert FormText(forms[0]) == "_all" && FormText(forms[1]) == "-db";
    assert FormTexts(forms) == ["_all"] + ["-db"];
    JoinStep("_all", ["-db"], ",");
  }

  lemma AllButOne(other: string, name: string)
    requires PlainName(other)
    ensures var forms := [Form(Everything, None, "", ""), Form(Excluding(other), None, "", "")];
            && Parse(Settings(forms), "").Some?
            && (IsEnabled(Parse(Settings(forms), "").value, name) <==> name != other)
  {
    var all, but := Form(Everything, None, "", ""), Form(Excluding(other), None, "", "");
    var forms := [all, but];
    DefaultExactly("", Info);
    assert Proper(all) && Proper(but) && !Misspelt(all) && !Misspelt(but);
    WrittenSettings(forms, "", name);
    assert all in forms && but in forms;
  }

  // "_all,-db" leaves every logger on but db.
  lemma ExclusionExample(name: string)
    ensures Parse("_all,-db", "").Some? && (IsEnabled(Parse("_all,-db", "").value, name) <==> name != "db")
  {
    ExampleText();
    assert Trimmed("db") by {
      assert "db"[0] == 'd' && "db"[1] == 'b';
    }
    AllButOne("db", name);
  }
}
