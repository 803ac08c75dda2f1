// The test template's rebuild and its clones (bin/testdb, webtest/webtest.go).
// Any number of runs may rebuild at once, each may be killed or fail between
// any two commands, migration files may be edited meanwhile, and test packages
// clone throughout. Each command is one step; a migrate run lists the directory
// when it begins and reads each file in the step that applies it.
module TestTemplate {
  import opened Wrappers

  datatype File = File(name: string, text: string)

  // migrations/ in the order of its file names.
  type Directory = d: seq<File> | forall i, j :: 0 <= i < j < |d| ==> d[i].name != d[j].name

  function TextOf(d: seq<File>, name: string): Option<string> {
    if d == [] then None else if d[0].name == name then Some(d[0].text) else TextOf(d[1..], name)
  }

  lemma {:induction false} TextOfListed(d: Directory, k: nat)
    requires k < |d|
    ensures TextOf(d, d[k].name) == Some(d[k].text)
  {
    if k > 0 {
      assert d[0].name != d[k].name;
      TextOfListed(d[1..], k - 1);
    }
  }

  // shasum over shasum, taken to be injective.
  datatype Fingerprint = Fingerprint(of: seq<File>)

  // A database is the files applied to it and its comment.
  datatype Database = Database(schema: seq<File>, stamp: Option<Fingerprint>)

  datatype Name = Template | Scratch(pid: nat) | Clone(pid: nat)

  // Each number counts the edits of migrations/ made before a step: at, the
  // listing; readAt, the reading of each file so far; stampedAt, the stamp.
  datatype Run =
    | Sweeping(left: set<nat>)
    | Created
    | Migrating(at: nat, readAt: seq<nat>)
    | Migrated(at: nat, readAt: seq<nat>)
    | Stamped(at: nat, readAt: seq<nat>, stampedAt: nat)
    | Swapping(at: nat, readAt: seq<nat>, stampedAt: nat)

  datatype Build = Build(db: Database, at: nat, readAt: seq<nat>, stampedAt: nat)

  // history holds every state migrations/ has had; the last is the present one.
  datatype State = State(
    dbs: map<Name, Database>, runs: map<nat, Run>, copying: map<nat, Database>,
    history: seq<Directory>, builds: set<Build>)

  datatype Action =
    | Edit(files: Directory)
    | Launch(p: nat)
    | SweepOne(p: nat, q: nat)
    | CreateScratch(p: nat)
    | BeginMigrate(p: nat)
    | MigrateOne(p: nat)
    | EndMigrate(p: nat)
    | Stamp(p: nat)
    | DropTemplate(p: nat)
    | Rename(p: nat)
    | Fail(p: nat)
    | Kill(p: nat)
    | BeginClone(c: nat)
    | EndClone(c: nat)
    | DropClone(c: nat)

  function Files(s: State): Directory
    requires s.history != []
  {
    s.history[|s.history| - 1]
  }

  // A migrate run holds a connection to its scratch database.
  predicate Busy(s: State, p: nat) {
    p in s.runs && s.runs[p].Migrating?
  }

  // set -e and the EXIT trap: drop the run's own scratch database.
  function Exit(s: State, p: nat): State {
    s.(runs := s.runs - {p}, dbs := s.dbs - {Scratch(p)})
  }

  function Advance(s: State, p: nat, run: Run): State {
    s.(runs := s.runs[p := run])
  }

  function SetDb(s: State, name: Name, db: Database): State {
    s.(dbs := s.dbs[name := db])
  }

  function SweepStep(s: State, p: nat, q: nat): State {
    if p !in s.runs || !s.runs[p].Sweeping? || q !in s.runs[p].left then s
    else if Busy(s, q) then Exit(s, p)
    else Advance(s, p, Sweeping(s.runs[p].left - {q})).(dbs := s.dbs - {Scratch(q)})
  }

  // The commands of one run, after the sweep; a missing scratch database fails
  // the command that needs it, and dropping the template waits for its copies.
  function BuildStep(s: State, a: Action): State
    requires s.history != []
    requires Builds(a)
  {
    var p := a.p;
    if p !in s.runs then s else
    var run, mine := s.runs[p], Scratch(p);
    match a
    case CreateScratch(_) =>
      if run != Sweeping({}) then s
      else if mine in s.dbs then Exit(s, p)
      else SetDb(Advance(s, p, Created), mine, Database([], None))
    case BeginMigrate(_) =>
      if !run.Created? then s
      else if mine !in s.dbs then Exit(s, p)
      else Advance(s, p, Migrating(|s.history| - 1, []))
    case MigrateOne(_) =>
      if run.Migrating? && mine in s.dbs && run.at < |s.history| && |run.readAt| < |s.history[run.at]| then
        var name := s.history[run.at][|run.readAt|].name;
        var text := TextOf(Files(s), name);
        if text.None? then Exit(s, p)
        else SetDb(Advance(s, p, Migrating(run.at, run.readAt + [|s.history| - 1])), mine,
                   Database(s.dbs[mine].schema + [File(name, text.value)], None))
      else s
    case EndMigrate(_) =>
      if run.Migrating? && run.at < |s.history| && |run.readAt| == |s.history[run.at]| then
        Advance(s, p, Migrated(run.at, run.readAt))
      else s
    case Stamp(_) =>
      if !run.Migrated? then s
      else if mine !in s.dbs then Exit(s, p)
      else SetDb(Advance(s, p, Stamped(run.at, run.readAt, |s.history| - 1)), mine,
                 s.dbs[mine].(stamp := Some(Fingerprint(Files(s)))))
    case DropTemplate(_) =>
      if !run.Stamped? then s
      else if s.copying != map[] then s
      else Advance(s, p, Swapping(run.at, run.readAt, run.stampedAt)).(dbs := s.dbs - {Template})
    case Rename(_) =>
      if !run.Swapping? then s
      else if mine !in s.dbs || Template in s.dbs then Exit(s, p)
      else s.(dbs := (s.dbs - {mine})[Template := s.dbs[mine]], runs := s.runs - {p},
              builds := s.builds + {Build(s.dbs[mine], run.at, run.readAt, run.stampedAt)})
  }

  // The scratch databases a run finds when it starts.
  function Scratches(s: State): set<nat> {
    set n | n in s.dbs && n.Scratch? :: n.pid
  }

  function Step(s: State, a: Action): State
    requires s.history != []
  {
    match a
    case Edit(files) => s.(history := s.history + [files])
    case Launch(p) =>
      if p in s.runs then s else Advance(s, p, Sweeping(Scratches(s)))
    case SweepOne(p, q) => SweepStep(s, p, q)
    case Fail(p) => if p in s.runs then Exit(s, p) else s
    case Kill(p) => s.(runs := s.runs - {p})
    case BeginClone(c) =>
      if Template in s.dbs && c !in s.copying then s.(copying := s.copying[c := s.dbs[Template]]) else s
    case EndClone(c) =>
      if c in s.copying then SetDb(s, Clone(c), s.copying[c]).(copying := s.copying - {c}) else s
    case DropClone(c) => s.(dbs := s.dbs - {Clone(c)})
    case _ => BuildStep(s, a)
  }

  function Execute(s: State, actions: seq<Action>): State
    requires s.history != []
    decreases |actions|
  {
    if actions == [] then s else StepHistory(s, actions[0]); Execute(Step(s, actions[0]), actions[1..])
  }

  lemma StepHistory(s: State, a: Action)
    requires s.history != []
    ensures |Step(s, a).history| >= |s.history| && Step(s, a).history[..|s.history|] == s.history
  {
  }

  predicate Start(s: State) {
    s.dbs == map[] && s.runs == map[] && s.copying == map[] && |s.history| == 1 && s.builds == {}
  }

  // The first files listed at one moment, each as it stood when it was read.
  predicate Assembled(history: seq<Directory>, at: nat, readAt: seq<nat>, schema: seq<File>) {
    && at < |history| && |schema| == |readAt| <= |history[at]|
    && forall k :: 0 <= k < |readAt| ==>
         && at <= readAt[k] < |history| && schema[k].name == history[at][k].name
         && TextOf(history[readAt[k]], schema[k].name) == Some(schema[k].text)
  }

  // A completed build applied all files listed at one moment, and carries the
  // fingerprint of the directory as it stood at a moment after the last reading.
  predicate Complete(s: State, b: Build) {
    && b.at <= b.stampedAt < |s.history|
    && Assembled(s.history, b.at, b.readAt, b.db.schema) && |b.readAt| == |s.history[b.at]|
    && (forall k :: 0 <= k < |b.readAt| ==> b.readAt[k] <= b.stampedAt)
    && b.db.stamp == Some(Fingerprint(s.history[b.stampedAt]))
  }

  ghost predicate IsBuilt(s: State, db: Database) {
    exists b :: b in s.builds && b.db == db
  }

  // What each run may rely on about its own scratch database, if it is there.
  predicate Underway(s: State, p: nat)
    requires p in s.runs && Scratch(p) in s.dbs
  {
    var db := s.dbs[Scratch(p)];
    match s.runs[p]
    case Sweeping(_) => true
    case Created => db == Database([], None)
    case Migrating(at, readAt) => Assembled(s.history, at, readAt, db.schema) && db.stamp == None
    case Migrated(at, readAt) =>
      Assembled(s.history, at, readAt, db.schema) && |readAt| == |s.history[at]| && db.stamp == None
    case Stamped(at, readAt, st) => Complete(s, Build(db, at, readAt, st))
    case Swapping(at, readAt, st) => Complete(s, Build(db, at, readAt, st))
  }

  ghost predicate Inv(s: State) {
    && s.history != []
    && (forall b :: b in s.builds ==> Complete(s, b))
    && (Template in s.dbs ==> IsBuilt(s, s.dbs[Template]))
    && (forall n :: n in s.dbs && n.Clone? ==> IsBuilt(s, s.dbs[n]))
    && (forall c :: c in s.copying ==> IsBuilt(s, s.copying[c]))
    && (forall p :: p in s.runs && Scratch(p) in s.dbs ==> Underway(s, p))
  }

  lemma CompleteGrows(s: State, a: Action, b: Build)
    requires s.history != [] && Complete(s, b)
    ensures Complete(Step(s, a), b)
  {
    StepHistory(s, a);
  }

  lemma IsBuiltGrows(s: State, a: Action, db: Database)
    requires s.history != [] && IsBuilt(s, db)
    ensures IsBuilt(Step(s, a), db)
  {
    var b :| b in s.builds && b.db == db;
    assert b in Step(s, a).builds;
  }

  predicate Builds(a: Action) {
    a.CreateScratch? || a.BeginMigrate? || a.MigrateOne? || a.EndMigrate? || a.Stamp? || a.DropTemplate? || a.Rename?
  }

  // Nobody else writes a run's scratch database or moves the run along.
  lemma OthersLeaveRun(s: State, a: Action, p: nat)
    requires s.history != [] && !(Builds(a) && a.p == p)
    requires p in Step(s, a).runs && Scratch(p) in Step(s, a).dbs && !Step(s, a).runs[p].Sweeping?
    ensures p in s.runs && Step(s, a).runs[p] == s.runs[p]
    ensures Scratch(p) in s.dbs && Step(s, a).dbs[Scratch(p)] == s.dbs[Scratch(p)]
  {
    if Builds(a) {
      OtherBuildLeavesRun(s, a, p);
    }
  }

  lemma OtherBuildLeavesRun(s: State, a: Action, p: nat)
    requires s.history != [] && Builds(a) && a.p != p
    ensures p in BuildStep(s, a).runs <==> p in s.runs
    ensures p in s.runs ==> BuildStep(s, a).runs[p] == s.runs[p]
    ensures Scratch(p) in BuildStep(s, a).dbs <==> Scratch(p) in s.dbs
    ensures Scratch(p) in s.dbs ==> BuildStep(s, a).dbs[Scratch(p)] == s.dbs[Scratch(p)]
  {
  }

  // What a run relies on, it may still rely on when more edits are known.
  lemma UnderwayGrows(s: State, s': State, p: nat)
    requires p in s.runs && p in s'.runs && s'.runs[p] == s.runs[p]
    requires Scratch(p) in s.dbs && Scratch(p) in s'.dbs && s'.dbs[Scratch(p)] == s.dbs[Scratch(p)]
    requires |s'.history| >= |s.history| && s'.history[..|s.history|] == s.history
    requires Underway(s, p)
    ensures Underway(s', p)
  {
  }

  lemma OneMoreFile(history: seq<Directory>, at: nat, readAt: seq<nat>, schema: seq<File>, text: string)
    requires Assembled(history, at, readAt, schema) && |readAt| < |history[at]|
    requires TextOf(history[|history| - 1], history[at][|readAt|].name) == Some(text)
    ensures Assembled(history, at, readAt + [|history| - 1], schema + [File(history[at][|readAt|].name, text)])
  {
  }

  lemma OwnStepKeepsUnderway(s: State, a: Action, p: nat)
    requires Inv(s) && Builds(a) && a.p == p
    requires p in BuildStep(s, a).runs && Scratch(p) in BuildStep(s, a).dbs
    ensures Underway(BuildStep(s, a), p)
  {
    assert Scratch(p) in s.dbs ==> Underway(s, p);
    if a.MigrateOne? && s.runs[p].Migrating? && s.runs[p].at < |s.history| && Scratch(p) in s.dbs {
      var run := s.runs[p];
      if |run.readAt| < |s.history[run.at]| {
        var text := TextOf(Files(s), s.history[run.at][|run.readAt|].name);
        if text.Some? {
          OneMoreFile(s.history, run.at, run.readAt, s.dbs[Scratch(p)].schema, text.value);
        }
      }
    }
  }

  lemma StepKeepsUnderway(s: State, a: Action, p: nat)
    requires Inv(s) && p in Step(s, a).runs && Scratch(p) in Step(s, a).dbs
    ensures Underway(Step(s, a), p)
  {
    StepHistory(s, a);
    if Builds(a) && a.p == p {
      OwnStepKeepsUnderway(s, a, p);
    } else if !Step(s, a).runs[p].Sweeping? {
      OthersLeaveRun(s, a, p);
      assert Underway(s, p);
      UnderwayGrows(s, Step(s, a), p);
    }
  }

  lemma StepKeepsBuilds(s: State, a: Action)
    requires Inv(s)
    ensures forall b :: b in Step(s, a).builds ==> Complete(Step(s, a), b)
  {
    var s' := Step(s, a);
    forall b | b in s'.builds ensures Complete(s', b) {
      if b in s.builds {
        CompleteGrows(s, a, b);
      } else {
        assert Underway(s, a.p);
        CompleteGrows(s, a, b);
      }
    }
  }

  lemma SeenComesFrom(s: State, a: Action, n: Name)
    requires s.history != [] && n in Step(s, a).dbs && !n.Scratch?
    ensures var s' := Step(s, a);
            || (n in s.dbs && s'.dbs[n] == s.dbs[n])
            || (a.EndClone? && a.c in s.copying && s'.dbs[n] == s.copying[a.c])
            || (a.Rename? && a.p in s.runs && s.runs[a.p].Swapping? &&
                Build(s'.dbs[n], s.runs[a.p].at, s.runs[a.p].readAt, s.runs[a.p].stampedAt) in s'.builds)
  {
  }

  lemma StepKeepsSeen(s: State, a: Action, n: Name)
    requires Inv(s) && n in Step(s, a).dbs && !n.Scratch?
    ensures IsBuilt(Step(s, a), Step(s, a).dbs[n])
  {
    SeenComesFrom(s, a, n);
    if n in s.dbs && Step(s, a).dbs[n] == s.dbs[n] {
      IsBuiltGrows(s, a, s.dbs[n]);
    } else if a.EndClone? {
      IsBuiltGrows(s, a, s.copying[a.c]);
    }
  }

  lemma CopyComesFrom(s: State, a: Action, c: nat)
    requires s.history != [] && c in Step(s, a).copying
    ensures c in s.copying ==> Step(s, a).copying[c] == s.copying[c]
    ensures c !in s.copying ==> Template in s.dbs && Step(s, a).copying[c] == s.dbs[Template]
  {
  }

  lemma StepKeepsCopying(s: State, a: Action, c: nat)
    requires Inv(s) && c in Step(s, a).copying
    ensures IsBuilt(Step(s, a), Step(s, a).copying[c])
  {
    CopyComesFrom(s, a, c);
    if c in s.copying {
      IsBuiltGrows(s, a, s.copying[c]);
    } else {
      IsBuiltGrows(s, a, s.dbs[Template]);
    }
  }

  lemma {:induction false} ExecuteKeepsInv(s: State, actions: seq<Action>)
    requires Inv(s)
    ensures Inv(Execute(s, actions))
    decreases |actions|
  {
    if actions != [] {
      var s' := Step(s, actions[0]);
      StepHistory(s, actions[0]);
      StepKeepsBuilds(s, actions[0]);
      forall n | n in s'.dbs && !n.Scratch? ensures IsBuilt(s', s'.dbs[n]) {
        StepKeepsSeen(s, actions[0], n);
      }
      forall c | c in s'.copying ensures IsBuilt(s', s'.copying[c]) {
        StepKeepsCopying(s, actions[0], c);
      }
      forall p | p in s'.runs && Scratch(p) in s'.dbs ensures Underway(s', p) {
        StepKeepsUnderway(s, actions[0], p);
      }
      ExecuteKeepsInv(s', actions[1..]);
    }
  }

  // Whatever runs, fails, is killed or is edited, the template is absent or a
  // completed build, and every test database is a copy of a completed build.
  lemma OnlyCompletedBuildsAreSeen(s: State, actions: seq<Action>, name: Name)
    requires Start(s)
    requires name in Execute(s, actions).dbs && !name.Scratch?
    ensures var r := Execute(s, actions);
            exists b :: b in r.builds && b.db == r.dbs[name] && Complete(r, b)
  {
    ExecuteKeepsInv(s, actions);
    var r := Execute(s, actions);
    assert IsBuilt(r, r.dbs[name]);
  }

  datatype Verdict = Missing | Current | Stale

  // bin/testdb --check
  function Check(s: State): Verdict
    requires s.history != []
  {
    if Template !in s.dbs then Missing
    else if s.dbs[Template].stamp == Some(Fingerprint(Files(s))) then Current
    else Stale
  }

  // The listing was that of the stamp, and so was each file when it was read.
  predicate ReadAsStamped(history: seq<Directory>, b: Build) {
    && b.at < |history| && b.stampedAt < |history| && |b.readAt| == |history[b.at]| == |history[b.stampedAt]|
    && forall k :: 0 <= k < |b.readAt| ==>
         && history[b.at][k].name == history[b.stampedAt][k].name && b.readAt[k] < |history|
         && TextOf(history[b.readAt[k]], history[b.at][k].name) == Some(history[b.stampedAt][k].text)
  }

  lemma SchemaWhenRead(s: State, b: Build)
    requires Complete(s, b) && ReadAsStamped(s.history, b)
    ensures b.db.schema == s.history[b.stampedAt]
  {
    var files := s.history[b.stampedAt];
    forall k | 0 <= k < |b.readAt| ensures b.db.schema[k] == files[k] {
      assert TextOf(s.history[b.readAt[k]], s.history[b.at][k].name) == Some(files[k].text);
    }
  }

  lemma ReadWhenSchema(s: State, b: Build)
    requires Complete(s, b) && b.db.schema == s.history[b.stampedAt]
    ensures ReadAsStamped(s.history, b)
  {
    forall k | 0 <= k < |b.readAt|
      ensures s.history[b.at][k].name == s.history[b.stampedAt][k].name
      ensures TextOf(s.history[b.readAt[k]], s.history[b.at][k].name) == Some(s.history[b.stampedAt][k].text)
    {
      assert b.db.schema[k] == s.history[b.stampedAt][k];
    }
  }

  lemma UneditedIsRead(s: State, b: Build)
    requires Complete(s, b) && b.at == b.stampedAt
    ensures ReadAsStamped(s.history, b)
  {
    var files := s.history[b.at];
    forall k | 0 <= k < |b.readAt| ensures TextOf(s.history[b.readAt[k]], files[k].name) == Some(files[k].text) {
      TextOfListed(files, k);
    }
  }

  lemma SchemaExactly(s: State, b: Build)
    requires Complete(s, b)
    ensures b.db.schema == s.history[b.stampedAt] <==> ReadAsStamped(s.history, b)
    ensures b.at == b.stampedAt ==> ReadAsStamped(s.history, b)
  {
    if ReadAsStamped(s.history, b) { SchemaWhenRead(s, b); }
    if b.db.schema == s.history[b.stampedAt] { ReadWhenSchema(s, b); }
    if b.at == b.stampedAt { UneditedIsRead(s, b); }
  }

  // When the check passes, the template has the directory's migrations exactly
  // if its build found the stamped names and read each file as stamped; in
  // particular when the directory was not edited from the listing to the stamp.
  lemma CheckIsRightExactly(s: State, actions: seq<Action>) returns (b: Build)
    requires Start(s) && Execute(s, actions).history != []
    requires Check(Execute(s, actions)) == Current
    ensures var r := Execute(s, actions);
            && b in r.builds && b.db == r.dbs[Template] && b.at <= b.stampedAt < |r.history|
            && (r.dbs[Template].schema == Files(r) <==> ReadAsStamped(r.history, b))
            && (b.at == b.stampedAt ==> r.dbs[Template].schema == Files(r))
  {
    ExecuteKeepsInv(s, actions);
    var r := Execute(s, actions);
    b :| b in r.builds && b.db == r.dbs[Template];
    assert Complete(r, b);
    SchemaExactly(r, b);
  }

  lemma EditThenStamp(s: State, p: nat, files: Directory)
    requires s.history != [] && s.copying == map[]
    requires p in s.runs && s.runs[p].Migrated? && Scratch(p) in s.dbs
    ensures var s1 := Step(s, Edit(files));
            var s2 := Step(s1, Stamp(p));
            && s1.history != [] && s2.history == s.history + [files] && s2.copying == map[]
            && p in s2.runs && s2.runs[p].Stamped?
            && Scratch(p) in s2.dbs
            && s2.dbs[Scratch(p)] == Database(s.dbs[Scratch(p)].schema, Some(Fingerprint(files)))
  {
  }

  lemma SwapIn(s: State, p: nat)
    requires s.history != [] && s.copying == map[]
    requires p in s.runs && s.runs[p].Stamped? && Scratch(p) in s.dbs
    ensures var s1 := Step(s, DropTemplate(p));
            && s1.history != [] && Step(s1, Rename(p)).history == s.history
            && Template in Step(s1, Rename(p)).dbs && Step(s1, Rename(p)).dbs[Template] == s.dbs[Scratch(p)]
  {
  }

  // An edit between a run's migrating and its stamping gives a template that
  // the check accepts and that lacks the edit.
  lemma EditDuringBuildPassesCheck(s: State, p: nat, files: Directory)
    requires s.history != [] && s.copying == map[]
    requires p in s.runs && s.runs[p].Migrated? && Scratch(p) in s.dbs
    ensures var r := Execute(s, [Edit(files), Stamp(p), DropTemplate(p), Rename(p)]);
            && r.history != [] && Check(r) == Current && Files(r) == files
            && Template in r.dbs && r.dbs[Template].schema == s.dbs[Scratch(p)].schema
  {
    EditThenStamp(s, p, files);
    SwapIn(Step(Step(s, Edit(files)), Stamp(p)), p);
    ExecuteFour(s, Edit(files), Stamp(p), DropTemplate(p), Rename(p));
  }

  lemma ExecuteFour(s: State, a: Action, b: Action, c: Action, d: Action)
    requires s.history != []
    ensures Step(s, a).history != [] && Step(Step(s, a), b).history != [] && Step(Step(Step(s, a), b), c).history != []
    ensures Execute(s, [a, b, c, d]) == Step(Step(Step(Step(s, a), b), c), d)
  {
    StepHistory(s, a);
    StepHistory(Step(s, a), b);
    StepHistory(Step(Step(s, a), b), c);
    var s1 := Step(s, a);
    var s2 := Step(s1, b);
    var s3 := Step(s2, c);
    assert [a, b, c, d][1..] == [b, c, d] && [b, c, d][1..] == [c, d] && [c, d][1..] == [d] && [d][1..] == [];
    StepHistory(s3, d);
    assert Execute(s3, [d]) == Step(s3, d);
    assert Execute(s2, [c, d]) == Execute(s3, [d]);
    assert Execute(s1, [b, c, d]) == Execute(s2, [c, d]);
    assert Execute(s, [a, b, c, d]) == Execute(s1, [b, c, d]);
  }

  // ---- The same from the start -------------------------------------------------------

  lemma ExecuteStep(s: State, a: Action, rest: seq<Action>)
    requires s.history != []
    ensures Step(s, a).history != [] && Execute(s, [a] + rest) == Execute(Step(s, a), rest)
  {
    StepHistory(s, a);
    assert ([a] + rest)[1..] == rest;
  }

  lemma {:induction false} ExecuteJoins(s: State, a: seq<Action>, b: seq<Action>)
    requires s.history != []
    ensures Execute(s, a).history != []
    ensures Execute(s, a + b) == Execute(Execute(s, a), b)
    decreases |a|
  {
    if a == [] {
      assert a + b == b;
    } else {
      StepHistory(s, a[0]);
      ExecuteJoins(Step(s, a[0]), a[1..], b);
      assert (a + b)[0] == a[0] && (a + b)[1..] == a[1..] + b;
    }
  }

  lemma NoScratches(s: State)
    requires s.dbs == map[]
    ensures Scratches(s) == {}
  {
  }

  // A run of a directory of one file, up to its listing.
  lemma Listed(s: State)
    requires Start(s)
    ensures Execute(s, [Launch(0), CreateScratch(0), BeginMigrate(0)]) ==
            s.(dbs := map[Scratch(0) := Database([], None)], runs := map[0 := Migrating(0, [])])
  {
    var s1 := Step(s, Launch(0));
    NoScratches(s);
    assert s1 == s.(runs := map[0 := Sweeping({})]);
    var s2 := Step(s1, CreateScratch(0));
    assert s2 == s.(dbs := map[Scratch(0) := Database([], None)], runs := map[0 := Created]);
    ExecuteStep(s, Launch(0), [CreateScratch(0), BeginMigrate(0)]);
    ExecuteStep(s1, CreateScratch(0), [BeginMigrate(0)]);
    ExecuteStep(s2, BeginMigrate(0), []);
    assert [Launch(0)] + [CreateScratch(0), BeginMigrate(0)] == [Launch(0), CreateScratch(0), BeginMigrate(0)];
    assert [CreateScratch(0)] + [BeginMigrate(0)] == [CreateScratch(0), BeginMigrate(0)];
    assert [BeginMigrate(0)] + [] == [BeginMigrate(0)];
  }

  predicate AtListing(o: State, name: string, text: string) {
    && o.history != [] && |o.history[0]| == 1 && o.history[0][0].name == name && Files(o) == [File(name, text)]
    && o.runs == map[0 := Migrating(0, [])] && o.dbs == map[Scratch(0) := Database([], None)]
  }

  lemma OneApplied(o: State, name: string, text: string)
    requires AtListing(o, name, text)
    ensures Step(o, MigrateOne(0)) ==
            o.(dbs := map[Scratch(0) := Database([File(name, text)], None)],
               runs := map[0 := Migrating(0, [|o.history| - 1])])
  {
    TextOfListed(Files(o), 0);
    assert TextOf(Files(o), o.history[0][0].name) == Some(text);
    assert [] + [File(name, text)] == [File(name, text)] && [] + [|o.history| - 1] == [|o.history| - 1];
  }

  // And on to its one file, read as it stands by then.
  lemma Applied(o: State, name: string, text: string)
    requires AtListing(o, name, text)
    ensures Execute(o, [MigrateOne(0), EndMigrate(0)]) ==
            o.(dbs := map[Scratch(0) := Database([File(name, text)], None)],
               runs := map[0 := Migrated(0, [|o.history| - 1])])
  {
    OneApplied(o, name, text);
    ExecuteStep(o, MigrateOne(0), [EndMigrate(0)]);
    ExecuteStep(Step(o, MigrateOne(0)), EndMigrate(0), []);
    assert [MigrateOne(0)] + [EndMigrate(0)] == [MigrateOne(0), EndMigrate(0)];
    assert [EndMigrate(0)] + [] == [EndMigrate(0)];
  }

  const TO_LISTING := [Launch(0), CreateScratch(0), BeginMigrate(0)]
  const TO_MIGRATED := [MigrateOne(0), EndMigrate(0)]

  function ToTemplate(files: Directory): seq<Action> {
    [Edit(files), Stamp(0), DropTemplate(0), Rename(0)]
  }

  // From the start: a file edited after it was applied and before the stamp.
  lemma EditMissed(s: State, name: string, before: string, after: string) returns (actions: seq<Action>)
    requires Start(s) && s.history[0] == [File(name, before)]
    ensures var r := Execute(s, actions);
            && r.history != [] && Check(r) == Current && Files(r) == [File(name, after)]
            && Template in r.dbs && r.dbs[Template].schema == [File(name, before)]
  {
    Listed(s);
    var o := Execute(s, TO_LISTING);
    Applied(o, name, before);
    var m := Execute(o, TO_MIGRATED);
    EditDuringBuildPassesCheck(m, 0, [File(name, after)]);
    actions := TO_LISTING + (TO_MIGRATED + ToTemplate([File(name, after)]));
    ExecuteJoins(s, TO_LISTING, TO_MIGRATED + ToTemplate([File(name, after)]));
    ExecuteJoins(o, TO_MIGRATED, ToTemplate([File(name, after)]));
  }

  // From the start: a file edited after the listing, applied, and put back
  // before the stamp, so that listing and stamp see one and the same directory.
  lemma UndoneEditMissed(s: State, name: string, before: string, between: string) returns (actions: seq<Action>)
    requires Start(s) && s.history[0] == [File(name, before)]
    ensures var r := Execute(s, actions);
            && r.history != [] && Check(r) == Current && Files(r) == s.history[0]
            && Template in r.dbs && r.dbs[Template].schema == [File(name, between)]
  {
    Listed(s);
    var o := Execute(s, TO_LISTING);
    var edited := Step(o, Edit([File(name, between)]));
    assert edited == o.(history := s.history + [[File(name, between)]]);
    Applied(edited, name, between);
    var m := Execute(edited, TO_MIGRATED);
    EditDuringBuildPassesCheck(m, 0, [File(name, before)]);
    var rest := TO_MIGRATED + ToTemplate([File(name, before)]);
    actions := TO_LISTING + ([Edit([File(name, between)])] + rest);
    ExecuteJoins(s, TO_LISTING, [Edit([File(name, between)])] + rest);
    ExecuteStep(o, Edit([File(name, between)]), rest);
    ExecuteJoins(edited, TO_MIGRATED, ToTemplate([File(name, before)]));
  }

  // ---- Cloning the template ------------------------------------------------------------

  datatype Try = Cloned | Absent | Rejected

  datatype Outcome = Ok | TemplateMissing | CloneFailed

  const LAST_ATTEMPT := 20

  // What the server answers to a try; it may reject one, as while another copies.
  function Answer(s: State, rejects: bool): Try {
    if Template !in s.dbs then Absent else if rejects then Rejected else Cloned
  }

  lemma ExecuteHistory(s: State, actions: seq<Action>)
    requires s.history != []
    ensures Execute(s, actions).history != []
  {
    ExecuteJoins(s, actions, []);
  }

  // The state a try finds, when others act between the tries and a try that
  // fails changes nothing.
  function Before(s: State, others: nat -> seq<Action>, i: nat): (r: State)
    requires s.history != []
    ensures r.history != []
  {
    var since := if i == 0 then s else Before(s, others, i - 1);
    ExecuteHistory(since, others(i));
    Execute(since, others(i))
  }

  // Nobody else clones or drops the database of c.
  predicate Leaves(a: Action, c: nat) {
    (a.BeginClone? || a.EndClone? || a.DropClone?) ==> a.c != c
  }

  predicate AllLeave(actions: seq<Action>, c: nat) {
    forall i :: 0 <= i < |actions| ==> Leaves(actions[i], c)
  }

  lemma {:induction false} CopyStays(s: State, actions: seq<Action>, c: nat)
    requires s.history != [] && AllLeave(actions, c)
    ensures var r := Execute(s, actions);
            (c in r.copying <==> c in s.copying) && (c in s.copying ==> r.copying[c] == s.copying[c])
    decreases |actions|
  {
    if actions != [] {
      assert Leaves(actions[0], c);
      StepHistory(s, actions[0]);
      assert forall i :: 0 <= i < |actions[1..]| ==> actions[1..][i] == actions[i + 1];
      CopyStays(Step(s, actions[0]), actions[1..], c);
    }
  }

  lemma {:induction false} BeforeKeeps(s: State, others: nat -> seq<Action>, c: nat, i: nat)
    requires Inv(s) && c !in s.copying && forall k :: AllLeave(others(k), c)
    ensures Inv(Before(s, others, i)) && c !in Before(s, others, i).copying
  {
    var since := if i == 0 then s else Before(s, others, i - 1);
    if i > 0 {
      BeforeKeeps(s, others, c, i - 1);
    }
    ExecuteKeepsInv(since, others(i));
    CopyStays(since, others(i), c);
  }

  lemma CopyEnds(s: State, c: nat, during: seq<Action>)
    requires s.history != [] && Template in s.dbs && c !in s.copying && AllLeave(during, c)
    ensures Clone(c) in Copied(s, c, during).dbs && Copied(s, c, during).dbs[Clone(c)] == s.dbs[Template]
  {
    var begun := Step(s, BeginClone(c));
    assert begun.copying[c] == s.dbs[Template];
    CopyStays(begun, during, c);
  }

  lemma CopiedKeepsInv(s: State, c: nat, during: seq<Action>)
    requires Inv(s)
    ensures Inv(Copied(s, c, during))
  {
    OneStepKeepsInv(s, BeginClone(c));
    ExecuteKeepsInv(Step(s, BeginClone(c)), during);
    OneStepKeepsInv(Execute(Step(s, BeginClone(c)), during), EndClone(c));
  }

  // A copy that is begun ends as the template stood, whatever others do meanwhile.
  lemma CopyIsMade(s: State, c: nat, during: seq<Action>)
    requires Inv(s) && Template in s.dbs && c !in s.copying && AllLeave(during, c)
    ensures Copied(s, c, during).history != [] && Inv(Copied(s, c, during))
    ensures Clone(c) in Copied(s, c, during).dbs && Copied(s, c, during).dbs[Clone(c)] == s.dbs[Template]
    ensures exists b :: b in Copied(s, c, during).builds && b.db == s.dbs[Template] && Complete(Copied(s, c, during), b)
  {
    CopyEnds(s, c, during);
    CopiedKeepsInv(s, c, during);
    assert IsBuilt(Copied(s, c, during), s.dbs[Template]);
  }

  lemma OneStepKeepsInv(s: State, a: Action)
    requires Inv(s)
    ensures Inv(Step(s, a))
  {
    ExecuteStep(s, a, []);
    assert [a] + [] == [a];
    ExecuteKeepsInv(s, [a]);
  }

  function Copied(s: State, c: nat, during: seq<Action>): State
    requires s.history != []
  {
    ExecuteHistory(Step(s, BeginClone(c)), during);
    Step(Execute(Step(s, BeginClone(c)), during), EndClone(c))
  }

  function AnswerAt(s: State, others: nat -> seq<Action>, rejects: nat -> bool, i: nat): Try
    requires s.history != []
  {
    Answer(Before(s, others, i), rejects(i))
  }

  // The outcome of up to 21 tries: the first that clones ends them.
  ghost predicate Tried(s: State, others: nat -> seq<Action>, rejects: nat -> bool, outcome: Outcome, made: nat)
    requires s.history != []
  {
    && 1 <= made <= LAST_ATTEMPT + 1
    && (forall i :: 0 <= i < made - 1 ==> AnswerAt(s, others, rejects, i) != Cloned)
    && match outcome
       case Ok => AnswerAt(s, others, rejects, made - 1) == Cloned
       case TemplateMissing => made == LAST_ATTEMPT + 1 && AnswerAt(s, others, rejects, LAST_ATTEMPT) == Absent
       case CloneFailed => made == LAST_ATTEMPT + 1 && AnswerAt(s, others, rejects, LAST_ATTEMPT) == Rejected
  }

  lemma CopyHolds(s: State, c: nat, during: seq<Action>)
    requires Inv(s) && Template in s.dbs && c !in s.copying && AllLeave(during, c)
    ensures HoldsBuild(Copied(s, c, during), c)
  {
    CopyIsMade(s, c, during);
  }

  ghost predicate HoldsBuild(r: State, c: nat) {
    Clone(c) in r.dbs && exists b :: b in r.builds && b.db == r.dbs[Clone(c)] && Complete(r, b)
  }

  // What a try finds, and what it makes of it.
  lemma TryFinds(s: State, c: nat, others: nat -> seq<Action>, rejects: nat -> bool, during: seq<Action>, i: nat)
    requires Inv(s) && c !in s.copying && AllLeave(during, c) && forall k :: AllLeave(others(k), c)
    ensures var r := Execute(if i == 0 then s else Before(s, others, i - 1), others(i));
            && r == Before(s, others, i) && r.history != []
            && Answer(r, rejects(i)) == AnswerAt(s, others, rejects, i)
            && (Answer(r, rejects(i)) == Cloned ==> HoldsBuild(Copied(r, c, during), c))
  {
    var r := Before(s, others, i);
    BeforeKeeps(s, others, c, i);
    if Template in r.dbs {
      CopyHolds(r, c, during);
    }
  }

  ghost predicate NoneCloned(s: State, others: nat -> seq<Action>, rejects: nat -> bool, n: nat)
    requires s.history != []
  {
    forall i :: 0 <= i < n ==> AnswerAt(s, others, rejects, i) != Cloned
  }

  lemma TriesEnd(s: State, others: nat -> seq<Action>, rejects: nat -> bool, n: nat)
    requires s.history != [] && NoneCloned(s, others, rejects, n) && n <= LAST_ATTEMPT
    ensures var answer := AnswerAt(s, others, rejects, n);
            && (answer == Cloned ==> Tried(s, others, rejects, Ok, n + 1))
            && (answer != Cloned ==> NoneCloned(s, others, rejects, n + 1))
            && (answer == Absent && n == LAST_ATTEMPT ==> Tried(s, others, rejects, TemplateMissing, n + 1))
            && (answer == Rejected && n == LAST_ATTEMPT ==> Tried(s, others, rejects, CloneFailed, n + 1))
  {
  }

  // One try of the loop, and the copy when it is not refused.
  method TryToClone(s: State, c: nat, others: nat -> seq<Action>, rejects: nat -> bool, during: seq<Action>, i: nat,
                    since: State)
    returns (answer: Try, r: State)
    requires Inv(s) && c !in s.copying && AllLeave(during, c) && forall k :: AllLeave(others(k), c)
    requires since == if i == 0 then s else Before(s, others, i - 1)
    ensures answer == AnswerAt(s, others, rejects, i)
    ensures if answer == Cloned then HoldsBuild(r, c) else r == Before(s, others, i)
  {
    TryFinds(s, c, others, rejects, during, i);
    r := Execute(since, others(i));
    answer := Answer(r, rejects(i));
    if answer == Cloned {
      r := Copied(r, c, during);
    }
  }

  // The retry loop.
  method CloneTemplate(s: State, c: nat, others: nat -> seq<Action>, rejects: nat -> bool, during: seq<Action>)
    returns (outcome: Outcome, made: nat, r: State)
    requires Inv(s) && c !in s.copying && AllLeave(during, c) && forall i :: AllLeave(others(i), c)
    ensures Tried(s, others, rejects, outcome, made)
    ensures outcome == Ok ==> HoldsBuild(r, c)
  {
    r := s;
    var attempt := 0;
    while true
      invariant 0 <= attempt <= LAST_ATTEMPT
      invariant r == if attempt == 0 then s else Before(s, others, attempt - 1)
      invariant NoneCloned(s, others, rejects, attempt)
      decreases LAST_ATTEMPT - attempt
    {
      var answer;
      answer, r := TryToClone(s, c, others, rejects, during, attempt, r);
      TriesEnd(s, others, rejects, attempt);
      made := attempt + 1;
      if answer == Cloned {
        return Ok, made, r;
      }
      if attempt >= LAST_ATTEMPT {
        return if answer == Absent then TemplateMissing else CloneFailed, made, r;
      }
      attempt := attempt + 1;
    }
  }

  // createTestDB, after any run from the start: others act before each try and
  // during the copy. Within 21 tries it has a copy of a completed build exactly
  // if one of them finds the template and is not rejected.
  method CreateTestDB(start: State, earlier: seq<Action>, c: nat, others: nat -> seq<Action>, rejects: nat -> bool,
                      during: seq<Action>)
    returns (outcome: Outcome, made: nat, r: State)
    requires Start(start) && AllLeave(earlier, c) && AllLeave(during, c) && forall i :: AllLeave(others(i), c)
    ensures Execute(start, earlier).history != []
    ensures Tried(Step(Execute(start, earlier), DropClone(c)), others, rejects, outcome, made)
    ensures outcome == Ok <==>
            exists i :: 0 <= i <= LAST_ATTEMPT &&
              AnswerAt(Step(Execute(start, earlier), DropClone(c)), others, rejects, i) == Cloned
    ensures outcome == Ok ==> HoldsBuild(r, c)
  {
    ExecuteKeepsInv(start, earlier);
    CopyStays(start, earlier, c);
    var s := Step(Execute(start, earlier), DropClone(c));
    OneStepKeepsInv(Execute(start, earlier), DropClone(c));
    outcome, made, r := CloneTemplate(s, c, others, rejects, during);
  }
}
