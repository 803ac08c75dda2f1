// What bin/testdb does with scratch databases: a build drops the orphans it
// finds, and leaves none of its own; and a build left alone installs its template.
module TemplateSweep {
  import opened TestTemplate
  import opened Wrappers

  // ---- Who makes scratch databases, and who may drop them ------------------------------

  // Only its own run creates a scratch database.
  lemma ScratchAppears(s: State, a: Action, q: nat)
    requires s.history != [] && Scratch(q) !in s.dbs && Scratch(q) in Step(s, a).dbs
    ensures a == CreateScratch(q) && q in s.runs && s.runs[q] == Sweeping({}) && q in Step(s, a).runs
    ensures Step(s, a).runs[q] == Created && Step(s, a).dbs[Scratch(q)] == Database([], None)
  {
  }

  // While a run migrates, no other drops or changes its scratch database.
  lemma MigratingScratchStays(s: State, a: Action, q: nat)
    requires s.history != [] && Busy(s, q) && Scratch(q) in s.dbs
    requires a != Fail(q) && !(Builds(a) && a.p == q)
    ensures Scratch(q) in Step(s, a).dbs && Step(s, a).dbs[Scratch(q)] == s.dbs[Scratch(q)]
  {
    if Builds(a) {
      OtherBuildLeavesRun(s, a, q);
    }
  }

  // A run that ends, by its swap or by any failure short of a kill, leaves no
  // scratch database of its own.
  lemma EndedRunLeavesNone(s: State, a: Action, p: nat)
    requires s.history != [] && p in s.runs && p !in Step(s, a).runs && a != Kill(p)
    ensures Scratch(p) !in Step(s, a).dbs
  {
    if Builds(a) && a.p != p {
      OtherBuildLeavesRun(s, a, p);
    }
  }

  // The steps at which a command of run p fails: its sweep meets a database in
  // use; the scratch database is there already, or gone; a listed file is gone;
  // or the template is back.
  predicate CommandFails(s: State, a: Action, p: nat)
    requires s.history != [] && p in s.runs
  {
    var run, mine := s.runs[p], Scratch(p);
    match a
    case SweepOne(p', q) => p' == p && run.Sweeping? && q in run.left && Busy(s, q)
    case CreateScratch(p') => p' == p && run == Sweeping({}) && mine in s.dbs
    case BeginMigrate(p') => p' == p && run.Created? && mine !in s.dbs
    case MigrateOne(p') =>
      p' == p && run.Migrating? && mine in s.dbs && run.at < |s.history| && |run.readAt| < |s.history[run.at]|
      && forall f :: f in Files(s) ==> f.name != s.history[run.at][|run.readAt|].name
    case Stamp(p') => p' == p && run.Migrated? && mine !in s.dbs
    case Rename(p') => p' == p && run.Swapping? && (mine !in s.dbs || Template in s.dbs)
    case Fail(p') => p' == p
    case _ => false
  }

  lemma {:induction false} NoText(d: seq<File>, name: string)
    requires forall f :: f in d ==> f.name != name
    ensures TextOf(d, name).None?
  {
    if d != [] {
      assert forall f :: f in d[1..] ==> f in d;
      NoText(d[1..], name);
    }
  }

  // A failing command ends the run, its scratch database goes, and nothing else
  // changes.
  lemma FailureEndsRun(s: State, a: Action, p: nat)
    requires s.history != [] && p in s.runs && CommandFails(s, a, p)
    ensures Step(s, a) == s.(runs := s.runs - {p}, dbs := s.dbs - {Scratch(p)})
  {
    if a.MigrateOne? {
      NoText(Files(s), s.history[s.runs[p].at][|s.runs[p].readAt|].name);
    }
  }

  // Dropping the template waits for its copies; dropping a test database drops it.
  lemma DropsExactly(s: State, p: nat, c: nat)
    requires s.history != [] && p in s.runs && s.runs[p].Stamped?
    ensures s.copying != map[] ==> Step(s, DropTemplate(p)) == s
    ensures s.copying == map[] ==> Step(s, DropTemplate(p)).dbs == s.dbs - {Template}
    ensures Step(s, DropClone(c)) == s.(dbs := s.dbs - {Clone(c)})
  {
  }

  // The check's verdict: missing, or current exactly where the stamp is that of
  // the directory, or else stale.
  lemma VerdictExactly(s: State)
    requires s.history != []
    ensures Check(s) == Missing <==> Template !in s.dbs
    ensures Check(s) == Current <==>
              Template in s.dbs && s.dbs[Template].stamp.Some? && s.dbs[Template].stamp.value.of == Files(s)
  {
  }

  // ---- The sweep ------------------------------------------------------------------

  // The run of p goes on throughout.
  predicate Lasts(s: State, actions: seq<Action>, p: nat)
    requires s.history != []
    decreases |actions|
  {
    p in s.runs && (actions != [] ==> (StepHistory(s, actions[0]); Lasts(Step(s, actions[0]), actions[1..], p)))
  }

  // The scratch database of q is created anew by its owner.
  predicate CreatedAnew(s: State, actions: seq<Action>, q: nat)
    requires s.history != []
    decreases |actions|
  {
    actions != [] &&
    (StepHistory(s, actions[0]);
     || (Scratch(q) !in s.dbs && Scratch(q) in Step(s, actions[0]).dbs)
     || CreatedAnew(Step(s, actions[0]), actions[1..], q))
  }

  // A sweeping run has q before it, or q's scratch database is gone.
  predicate Facing(s: State, p: nat, q: nat) {
    p in s.runs && s.runs[p].Sweeping? ==> q in s.runs[p].left || Scratch(q) !in s.dbs
  }

  lemma StepKeepsFacing(s: State, a: Action, p: nat, q: nat)
    requires s.history != [] && Facing(s, p, q) && p in s.runs
    requires Scratch(q) in s.dbs || Scratch(q) !in Step(s, a).dbs
    ensures Facing(Step(s, a), p, q)
  {
    if Builds(a) && a.p != p {
      OtherBuildLeavesRun(s, a, p);
    }
  }

  lemma {:induction false} RunKeepsFacing(s: State, actions: seq<Action>, p: nat, q: nat)
    requires s.history != [] && Facing(s, p, q) && Lasts(s, actions, p) && !CreatedAnew(s, actions, q)
    ensures Facing(Execute(s, actions), p, q)
    decreases |actions|
  {
    if actions != [] {
      StepHistory(s, actions[0]);
      StepKeepsFacing(s, actions[0], p, q);
      RunKeepsFacing(Step(s, actions[0]), actions[1..], p, q);
    }
  }

  // When a run has finished sweeping and creates its own scratch database, no
  // scratch database from before it started is there, unless its owner created
  // it anew meanwhile.
  lemma SweepIsThorough(s: State, p: nat, during: seq<Action>, q: nat)
    requires s.history != [] && p !in s.runs
    requires Lasts(Step(s, Launch(p)), during, p) && !CreatedAnew(Step(s, Launch(p)), during, q)
    requires var m := Execute(Step(s, Launch(p)), during);
             m.history != [] && p in m.runs && m.runs[p].Sweeping? && p in Step(m, CreateScratch(p)).runs &&
             Step(m, CreateScratch(p)).runs[p].Created?
    ensures var m := Execute(Step(s, Launch(p)), during);
            Scratch(q) !in m.dbs && (Scratch(q) in Step(m, CreateScratch(p)).dbs <==> q == p)
  {
    RunKeepsFacing(Step(s, Launch(p)), during, p, q);
  }

  // ---- A build left alone -------------------------------------------------------------

  function AllButScratches(dbs: map<Name, Database>): map<Name, Database> {
    map n | n in dbs && !n.Scratch? :: dbs[n]
  }

  // Only the run of p is there.
  predicate Alone(s: State, p: nat, run: Run) {
    s.history != [] && s.runs == map[p := run] && s.copying == map[]
  }

  lemma ExecuteTwo(s: State, a: Action, rest: seq<Action>, r: State)
    requires s.history != [] && Step(s, a).history != [] && Execute(Step(s, a), rest) == r
    ensures Execute(s, [a] + rest) == r
  {
    ExecuteStep(s, a, rest);
  }

  lemma SweepOneAlone(s: State, p: nat, left: set<nat>, q: nat)
    requires Alone(s, p, Sweeping(left)) && q in left
    ensures Step(s, SweepOne(p, q)) == s.(runs := map[p := Sweeping(left - {q})], dbs := s.dbs - {Scratch(q)})
  {
  }

  // The scratch databases a set of identifiers names.
  function ScratchesOf(pids: set<nat>): set<Name> {
    set q | q in pids :: Scratch(q)
  }

  lemma {:induction false} Sweeps(s: State, p: nat, left: set<nat>) returns (actions: seq<Action>)
    requires Alone(s, p, Sweeping(left))
    ensures Execute(s, actions) == s.(runs := map[p := Sweeping({})], dbs := s.dbs - ScratchesOf(left))
    decreases |left|
  {
    if left == {} {
      actions := [];
      assert s.dbs - ScratchesOf(left) == s.dbs;
    } else {
      var q :| q in left;
      SweepOneAlone(s, p, left, q);
      var s' := Step(s, SweepOne(p, q));
      var rest := Sweeps(s', p, left - {q});
      assert (s.dbs - {Scratch(q)}) - ScratchesOf(left - {q}) == s.dbs - ScratchesOf(left);
      ExecuteTwo(s, SweepOne(p, q), rest, Execute(s', rest));
      actions := [SweepOne(p, q)] + rest;
    }
  }

  lemma MigrateOneAlone(s: State, p: nat, readAt: seq<nat>)
    requires s.history != [] && Alone(s, p, Migrating(|s.history| - 1, readAt)) && |readAt| < |Files(s)|
    requires Scratch(p) in s.dbs && s.dbs[Scratch(p)] == Database(Files(s)[..|readAt|], None)
    ensures Step(s, MigrateOne(p)) ==
            s.(runs := map[p := Migrating(|s.history| - 1, readAt + [|s.history| - 1])],
               dbs := s.dbs[Scratch(p) := Database(Files(s)[..|readAt| + 1], None)])
  {
    var k, files := |readAt|, Files(s);
    TextOfListed(files, k);
    assert files[..k + 1] == files[..k] + [File(files[k].name, files[k].text)];
  }

  lemma {:induction false} Migrates(s: State, p: nat, readAt: seq<nat>) returns (actions: seq<Action>, all: seq<nat>)
    requires s.history != [] && Alone(s, p, Migrating(|s.history| - 1, readAt)) && |readAt| <= |Files(s)|
    requires Scratch(p) in s.dbs && s.dbs[Scratch(p)] == Database(Files(s)[..|readAt|], None)
    ensures |all| == |Files(s)|
    ensures Execute(s, actions) ==
            s.(runs := map[p := Migrating(|s.history| - 1, all)], dbs := s.dbs[Scratch(p) := Database(Files(s), None)])
    decreases |Files(s)| - |readAt|
  {
    if |readAt| == |Files(s)| {
      assert Files(s)[..|readAt|] == Files(s);
      assert s.dbs[Scratch(p) := Database(Files(s), None)] == s.dbs;
      actions, all := [], readAt;
    } else {
      MigrateOneAlone(s, p, readAt);
      var s' := Step(s, MigrateOne(p));
      var rest, last := Migrates(s', p, readAt + [|s.history| - 1]);
      assert s'.dbs[Scratch(p) := Database(Files(s), None)] == s.dbs[Scratch(p) := Database(Files(s), None)];
      ExecuteTwo(s, MigrateOne(p), rest, Execute(s', rest));
      actions, all := [MigrateOne(p)] + rest, last;
    }
  }

  lemma CreatesAndLists(s: State, p: nat)
    requires Alone(s, p, Sweeping({})) && Scratch(p) !in s.dbs
    ensures Execute(s, [CreateScratch(p), BeginMigrate(p)]) ==
            s.(runs := map[p := Migrating(|s.history| - 1, [])], dbs := s.dbs[Scratch(p) := Database([], None)])
  {
    var s1 := Step(s, CreateScratch(p));
    assert s1 == s.(runs := map[p := Created], dbs := s.dbs[Scratch(p) := Database([], None)]);
    ExecuteTwo(s1, BeginMigrate(p), [], Step(s1, BeginMigrate(p)));
    ExecuteTwo(s, CreateScratch(p), [BeginMigrate(p)] + [], Step(s1, BeginMigrate(p)));
    assert [CreateScratch(p)] + ([BeginMigrate(p)] + []) == [CreateScratch(p), BeginMigrate(p)];
  }

  function Built(s: State): Database
    requires s.history != []
  {
    Database(Files(s), Some(Fingerprint(Files(s))))
  }

  lemma Stamps(s: State, p: nat, all: seq<nat>)
    requires s.history != [] && Alone(s, p, Migrating(|s.history| - 1, all)) && |all| == |Files(s)|
    requires Scratch(p) in s.dbs && s.dbs[Scratch(p)] == Database(Files(s), None)
    ensures Step(s, EndMigrate(p)).history != []
    ensures Step(Step(s, EndMigrate(p)), Stamp(p)) ==
            s.(runs := map[p := Stamped(|s.history| - 1, all, |s.history| - 1)], dbs := s.dbs[Scratch(p) := Built(s)])
  {
    var s1 := Step(s, EndMigrate(p));
    assert s1 == s.(runs := map[p := Migrated(|s.history| - 1, all)]);
  }

  lemma SwapsIn(s: State, p: nat, at: nat, all: seq<nat>, stampedAt: nat)
    requires Alone(s, p, Stamped(at, all, stampedAt)) && Scratch(p) in s.dbs
    ensures Step(s, DropTemplate(p)).history != []
    ensures var r := Step(Step(s, DropTemplate(p)), Rename(p));
            && r.history == s.history && r.runs == map[] && r.copying == map[]
            && r.dbs == (s.dbs - {Scratch(p)})[Template := s.dbs[Scratch(p)]]
  {
    var s1 := Step(s, DropTemplate(p));
    assert s1.dbs == s.dbs - {Template} && s1.runs == map[p := Swapping(at, all, stampedAt)];
    assert Step(s1, Rename(p)).runs == map[];
  }

  // The stamping and the swap.
  lemma Installs(s: State, p: nat, all: seq<nat>)
    requires s.history != [] && Alone(s, p, Migrating(|s.history| - 1, all)) && |all| == |Files(s)|
    requires Scratch(p) in s.dbs && s.dbs[Scratch(p)] == Database(Files(s), None)
    ensures var r := Execute(s, [EndMigrate(p), Stamp(p), DropTemplate(p), Rename(p)]);
            && r.history == s.history && r.runs == map[] && r.copying == map[]
            && r.dbs == (s.dbs - {Scratch(p)})[Template := Built(s)]
  {
    Stamps(s, p, all);
    var s2 := Step(Step(s, EndMigrate(p)), Stamp(p));
    SwapsIn(s2, p, |s.history| - 1, all, |s.history| - 1);
    ExecuteFour(s, EndMigrate(p), Stamp(p), DropTemplate(p), Rename(p));
    assert s2.dbs - {Scratch(p)} == s.dbs - {Scratch(p)};
  }

  // Everything after the sweep.
  lemma MigratesAndInstalls(s: State, p: nat) returns (actions: seq<Action>)
    requires Alone(s, p, Sweeping({})) && Scratch(p) !in s.dbs
    ensures var r := Execute(s, actions);
            && r.history == s.history && r.runs == map[] && r.copying == map[] && r.dbs == s.dbs[Template := Built(s)]
  {
    CreatesAndLists(s, p);
    var create, install := [CreateScratch(p), BeginMigrate(p)], [EndMigrate(p), Stamp(p), DropTemplate(p), Rename(p)];
    var listed := Execute(s, create);
    assert Files(listed)[..0] == [];
    var migrate, all := Migrates(listed, p, []);
    Installs(Execute(listed, migrate), p, all);
    assert Execute(listed, migrate).dbs - {Scratch(p)} == s.dbs;
    ExecuteJoins(s, create, migrate + install);
    ExecuteJoins(listed, migrate, install);
    actions := create + (migrate + install);
  }

  lemma NoneLeft(dbs: map<Name, Database>, pids: set<nat>)
    requires pids == set n | n in dbs && n.Scratch? :: n.pid
    ensures dbs - ScratchesOf(pids) == AllButScratches(dbs)
  {
    forall n | n in dbs ensures n in ScratchesOf(pids) <==> n.Scratch? {
      if n.Scratch? {
        assert n == Scratch(n.pid);
      }
    }
  }

  lemma SweepsAll(s: State, p: nat) returns (sweep: seq<Action>)
    requires s.history != [] && s.runs == map[] && s.copying == map[]
    ensures Step(s, Launch(p)).history != []
    ensures Execute(Step(s, Launch(p)), sweep) == s.(runs := map[p := Sweeping({})], dbs := AllButScratches(s.dbs))
  {
    var launched := Step(s, Launch(p));
    assert Alone(launched, p, Sweeping(Scratches(s)));
    sweep := Sweeps(launched, p, Scratches(s));
    NoneLeft(s.dbs, Scratches(s));
  }

  // With no other run and no copy under way, a build of any directory, over
  // whatever was killed before, ends with the template migrated and stamped, every
  // orphan gone, and every test database as it was.
  lemma BuildInstalls(s: State, p: nat) returns (actions: seq<Action>)
    requires s.history != [] && s.runs == map[] && s.copying == map[]
    ensures var r := Execute(s, actions);
            && r.history == s.history && r.runs == map[] && r.copying == map[] && Check(r) == Current
            && r.dbs == AllButScratches(s.dbs)[Template := Database(Files(s), Some(Fingerprint(Files(s))))]
  {
    var sweep := SweepsAll(s, p);
    var swept := Execute(Step(s, Launch(p)), sweep);
    var rest := MigratesAndInstalls(swept, p);
    ExecuteJoins(Step(s, Launch(p)), sweep, rest);
    ExecuteStep(s, Launch(p), sweep + rest);
    actions := [Launch(p)] + (sweep + rest);
  }

  // From the start: a run killed after it created its scratch database leaves it,
  // and the next build is rid of it.
  lemma OrphanIsSwept(s: State) returns (killed: seq<Action>, build: seq<Action>)
    requires Start(s)
    ensures var orphaned := Execute(s, killed);
            && orphaned.history != [] && orphaned.runs == map[] && Scratch(0) in orphaned.dbs
            && var r := Execute(orphaned, build);
               && r.history == s.history && Scratch(0) !in r.dbs && Check(r) == Current
               && Execute(s, killed + build) == r
  {
    killed := [Launch(0), CreateScratch(0), Kill(0)];
    var s1 := Step(s, Launch(0));
    NoScratches(s);
    assert s1 == s.(runs := map[0 := Sweeping({})]);
    var s2 := Step(s1, CreateScratch(0));
    assert s2 == s.(runs := map[0 := Created], dbs := map[Scratch(0) := Database([], None)]);
    var s3 := Step(s2, Kill(0));
    ExecuteTwo(s2, Kill(0), [], s3);
    ExecuteTwo(s1, CreateScratch(0), [Kill(0)] + [], s3);
    ExecuteTwo(s, Launch(0), [CreateScratch(0)] + ([Kill(0)] + []), s3);
    assert [Launch(0)] + ([CreateScratch(0)] + ([Kill(0)] + [])) == killed;
    build := BuildInstalls(s3, 1);
    ExecuteJoins(s, killed, build);
  }
}
