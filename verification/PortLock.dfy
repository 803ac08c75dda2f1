// Many allocators and releasers over one registry and one lock directory
// (bin/port-allocate, bin/port-deallocate). mkdir, rmdir and each read or write
// of the registry file is one step; a process may die between any two.
module PortLock {
  import opened Ports
  import opened Wrappers

  datatype Job = Allocate(workdir: string, branch: string) | Release(workdir: string)

  const ATTEMPTS := 50

  // From Entered on a process is between its mkdir and its exit trap's rmdir.
  // Stealing has removed a lock it judged stale and not yet made its own.
  datatype Phase =
    | Waiting(attempt: nat)
    | Stealing
    | Entered
    | Absent
    | Chosen(port: int)
    | Filtered(kept: seq<Row>)
    | Leaving(result: Option<int>)

  datatype Process = Process(job: Job, phase: Phase)

  // A job and the port it came to, if it was an allocation.
  datatype Done = Done(job: Job, port: Option<int>)

  // done lists the jobs that took effect, in the order they did: an update when
  // it is written, a lookup when it is read. printed lists what went to stdout.
  datatype State = State(pool: Pool, locked: bool, rows: seq<Row>, procs: map<nat, Process>, done: seq<Done>,
                         printed: seq<Done>)

  datatype Action =
    | Spawn(p: nat, job: Job)
    | Try(p: nat)
    | GiveUp(p: nat)
    | Interrupt(p: nat)
    | RemoveStale(p: nat)
    | Retake(p: nat)
    | Look(p: nat)
    | Choose(p: nat)
    | Write(p: nat)
    | Leave(p: nat)
    | Die(p: nat)

  predicate Inside(phase: Phase) {
    phase.Entered? || phase.Absent? || phase.Chosen? || phase.Filtered? || phase.Leaving?
  }

  function To(s: State, p: nat, phase: Phase): State
    requires p in s.procs
  {
    s.(procs := s.procs[p := s.procs[p].(phase := phase)])
  }

  // Any exit runs the trap, whether or not the process holds the lock.
  function Exit(s: State, p: nat): State {
    s.(procs := s.procs - {p}, locked := false)
  }

  function StepOf(s: State, a: Action): State
    requires !a.Spawn? && a.p in s.procs && 0 < s.pool.step
  {
    var p := a.p;
    var job, phase := s.procs[p].job, s.procs[p].phase;
    match a
    case Try(_) =>
      if !phase.Waiting? then s
      else if !s.locked then To(s, p, Entered).(locked := true)
      else if phase.attempt < ATTEMPTS then To(s, p, Waiting(phase.attempt + 1))
      else s
    case GiveUp(_) =>
      if phase == Waiting(ATTEMPTS) && s.locked then Exit(s, p) else s
    case Interrupt(_) => Exit(s, p)
    case RemoveStale(_) =>
      if phase == Waiting(ATTEMPTS) && s.locked then To(s, p, Stealing).(locked := false) else s
    case Retake(_) =>
      if !phase.Stealing? then s
      else if s.locked then Exit(s, p)
      else To(s, p, Entered).(locked := true)
    case Look(_) =>
      if !phase.Entered? then s
      else if job.Release? then To(s, p, Filtered(Released(s.rows, job.workdir)))
      else
        var existing := PortOf(s.rows, job.workdir);
        if existing.None? then To(s, p, Absent)
        else To(s, p, Leaving(existing)).(done := s.done + [Done(job, existing)])
    case Choose(_) =>
      if phase.Absent? then To(s, p, Chosen(FreePort(s.rows, s.pool))) else s
    case Write(_) =>
      if phase.Chosen? && job.Allocate? then
        To(s, p, Leaving(Some(phase.port))).(rows := s.rows + [Row(phase.port, job.workdir, job.branch)],
                                             done := s.done + [Done(job, Some(phase.port))])
      else if phase.Filtered? then To(s, p, Leaving(None)).(rows := phase.kept, done := s.done + [Done(job, None)])
      else s
    case Leave(_) =>
      if phase.Leaving? then Exit(s, p).(printed := s.printed + [Done(job, phase.result)])
      else if Inside(phase) then Exit(s, p)
      else s
    case Die(_) => s.(procs := s.procs - {p})
  }

  function Step(s: State, a: Action): State
    requires 0 < s.pool.step
  {
    if a.Spawn? then
      if a.p in s.procs then s else s.(procs := s.procs[a.p := Process(a.job, Waiting(1))])
    else if a.p in s.procs then StepOf(s, a) else s
  }

  predicate Start(s: State) {
    0 < s.pool.step && !s.locked && s.rows == [] && s.procs == map[] && s.done == [] && s.printed == []
  }

  lemma StepPool(s: State, a: Action)
    requires 0 < s.pool.step
    ensures Step(s, a).pool == s.pool
  {
  }

  function Run(s: State, actions: seq<Action>): State
    requires 0 < s.pool.step
    decreases |actions|
  {
    if actions == [] then s else StepPool(s, actions[0]); Run(Step(s, actions[0]), actions[1..])
  }

  // One job from start to end, with nobody else there.
  function Updated(pool: Pool, rows: seq<Row>, job: Job): seq<Row>
    requires 0 < pool.step
  {
    match job
    case Allocate(workdir, branch) =>
      if PortOf(rows, workdir).Some? then rows else rows + [Row(FreePort(rows, pool), workdir, branch)]
    case Release(workdir) => Released(rows, workdir)
  }

  function Result(pool: Pool, rows: seq<Row>, job: Job): Option<int>
    requires 0 < pool.step
  {
    match job
    case Allocate(workdir, _) =>
      if PortOf(rows, workdir).Some? then PortOf(rows, workdir) else Some(FreePort(rows, pool))
    case Release(_) => None
  }

  // The registry after jobs done one at a time, each from start to end.
  function OneAtATime(pool: Pool, done: seq<Done>): seq<Row>
    requires 0 < pool.step
  {
    if done == [] then [] else Updated(pool, OneAtATime(pool, done[..|done| - 1]), done[|done| - 1].job)
  }

  // Each came to the port it would have come to one at a time.
  ghost predicate ResultsOneAtATime(pool: Pool, done: seq<Done>)
    requires 0 < pool.step
  {
    forall i :: 0 <= i < |done| ==> done[i].port == Result(pool, OneAtATime(pool, done[..i]), done[i].job)
  }

  ghost predicate Linear(s: State)
    requires 0 < s.pool.step
  {
    s.rows == OneAtATime(s.pool, s.done) && ResultsOneAtATime(s.pool, s.done)
  }

  lemma OneMore(pool: Pool, done: seq<Done>, d: Done)
    requires 0 < pool.step
    ensures OneAtATime(pool, done + [d]) == Updated(pool, OneAtATime(pool, done), d.job)
    ensures ResultsOneAtATime(pool, done) && d.port == Result(pool, OneAtATime(pool, done), d.job) ==>
            ResultsOneAtATime(pool, done + [d])
  {
    var more := done + [d];
    assert more[..|done|] == done;
    assert forall i :: 0 <= i <= |done| ==> more[..i] == done[..i];
  }

  ghost predicate Exclusive(s: State) {
    && (forall p, q :: p in s.procs && q in s.procs && Inside(s.procs[p].phase) && Inside(s.procs[q].phase) ==> p == q)
    && (forall p :: p in s.procs && Inside(s.procs[p].phase) ==> s.locked)
  }

  // What a process read under the lock still holds when it writes.
  ghost predicate ReadHolds(s: State, p: nat)
    requires 0 < s.pool.step && p in s.procs
  {
    var job, phase := s.procs[p].job, s.procs[p].phase;
    && (phase.Absent? || phase.Chosen? ==> job.Allocate? && PortOf(s.rows, job.workdir).None?)
    && (phase.Chosen? ==> phase.port == FreePort(s.rows, s.pool))
    && (phase.Filtered? ==> job.Release? && phase.kept == Released(s.rows, job.workdir))
  }

  ghost predicate ReadsHold(s: State)
    requires 0 < s.pool.step
  {
    forall p :: p in s.procs ==> ReadHolds(s, p)
  }

  // The lock directory goes although the process that removes it is not inside.
  predicate RemovesUnheld(s: State, a: Action) {
    && !a.Spawn? && a.p in s.procs && s.locked
    && match a
       case GiveUp(p) => s.procs[p].phase == Waiting(ATTEMPTS)
       case RemoveStale(p) => s.procs[p].phase == Waiting(ATTEMPTS)
       case Retake(p) => s.procs[p].phase.Stealing?
       case Interrupt(p) => !Inside(s.procs[p].phase)
       case _ => false
  }

  ghost predicate RobsHolder(s: State, a: Action) {
    RemovesUnheld(s, a) && exists q :: q in s.procs && Inside(s.procs[q].phase)
  }

  // The lock stays with the one process inside exactly when the step does not
  // remove the directory from under it.
  lemma ExclusiveExactly(s: State, a: Action)
    requires 0 < s.pool.step && Exclusive(s)
    ensures Exclusive(Step(s, a)) <==> !RobsHolder(s, a)
  {
    if RobsHolder(s, a) {
      var q :| q in s.procs && Inside(s.procs[q].phase);
      assert q in Step(s, a).procs && Inside(Step(s, a).procs[q].phase) && !Step(s, a).locked;
    }
  }

  lemma OwnReadHolds(s: State, a: Action)
    requires 0 < s.pool.step && (a.p in s.procs ==> ReadHolds(s, a.p)) && a.p in Step(s, a).procs
    ensures ReadHolds(Step(s, a), a.p)
  {
  }

  // Nobody writes while another is inside.
  lemma OthersReadHolds(s: State, a: Action, q: nat)
    requires 0 < s.pool.step && Exclusive(s) && q != a.p && q in Step(s, a).procs
    requires q in s.procs && ReadHolds(s, q)
    ensures ReadHolds(Step(s, a), q)
  {
    assert Step(s, a).procs[q] == s.procs[q];
    assert Step(s, a).rows != s.rows ==> a.p in s.procs && Inside(s.procs[a.p].phase);
  }

  lemma StepKeepsReadsHold(s: State, a: Action)
    requires 0 < s.pool.step && Exclusive(s) && ReadsHold(s)
    ensures ReadsHold(Step(s, a))
  {
    forall q | q in Step(s, a).procs ensures ReadHolds(Step(s, a), q) {
      if q == a.p {
        OwnReadHolds(s, a);
      } else {
        OthersReadHolds(s, a, q);
      }
    }
  }

  // What a step adds to the jobs done, and that it does just that to the registry.
  lemma StepDoes(s: State, a: Action)
    requires 0 < s.pool.step && ReadsHold(s)
    ensures Step(s, a).pool == s.pool
    ensures Step(s, a).done == s.done ==> Step(s, a).rows == s.rows
    ensures Step(s, a).done != s.done ==>
              && |Step(s, a).done| == |s.done| + 1
              && var d := Step(s, a).done[|s.done|];
                 && Step(s, a).done == s.done + [d]
                 && Step(s, a).rows == Updated(s.pool, s.rows, d.job) && d.port == Result(s.pool, s.rows, d.job)
  {
  }

  lemma StepIsOneAtATime(s: State, a: Action)
    requires 0 < s.pool.step && ReadsHold(s) && Linear(s)
    ensures Step(s, a).pool == s.pool && Linear(Step(s, a))
  {
    StepDoes(s, a);
    if Step(s, a).done != s.done {
      OneMore(s.pool, s.done, Step(s, a).done[|s.done|]);
    }
  }

  // What a process is about to print, and what was printed, took effect.
  ghost predicate PrintsAreDone(s: State) {
    && (forall p :: p in s.procs && s.procs[p].phase.Leaving? ==>
          Done(s.procs[p].job, s.procs[p].phase.result) in s.done)
    && (forall d :: d in s.printed ==> d in s.done)
  }

  lemma StepKeepsPrintsDone(s: State, a: Action)
    requires 0 < s.pool.step && PrintsAreDone(s)
    ensures PrintsAreDone(Step(s, a))
  {
    DoneGrows(s, a);
    var s' := Step(s, a);
    forall p | p in s'.procs && s'.procs[p].phase.Leaving?
      ensures Done(s'.procs[p].job, s'.procs[p].phase.result) in s'.done
    {
      if p !in s.procs || s'.procs[p] != s.procs[p] {
        assert s'.done[|s.done|] == Done(s'.procs[p].job, s'.procs[p].phase.result);
      }
    }
  }

  lemma DoneGrows(s: State, a: Action)
    requires 0 < s.pool.step
    ensures s.done <= Step(s, a).done
  {
  }

  ghost predicate NobodyRobbed(s: State, actions: seq<Action>)
    requires 0 < s.pool.step
    decreases |actions|
  {
    actions != [] ==>
      !RobsHolder(s, actions[0]) && (StepPool(s, actions[0]); NobodyRobbed(Step(s, actions[0]), actions[1..]))
  }

  ghost predicate Safe(s: State) {
    && 0 < s.pool.step && Exclusive(s) && ReadsHold(s) && Linear(s) && PrintsAreDone(s)
    && WellFormed(s.rows, s.pool)
  }

  lemma UpdatedIsWellFormed(pool: Pool, rows: seq<Row>, job: Job)
    requires 0 < pool.step && WellFormed(rows, pool)
    ensures WellFormed(Updated(pool, rows, job), pool)
  {
    match job
    case Allocate(workdir, branch) =>
      if PortOf(rows, workdir).None? {
        AllocateKeepsWellFormed(rows, workdir, branch, pool);
      }
    case Release(workdir) => ReleaseKeepsWellFormed(rows, workdir, pool);
  }

  lemma {:induction false} OneAtATimeIsWellFormed(pool: Pool, done: seq<Done>)
    requires 0 < pool.step
    ensures WellFormed(OneAtATime(pool, done), pool)
  {
    if done != [] {
      var n := |done| - 1;
      OneAtATimeIsWellFormed(pool, done[..n]);
      UpdatedIsWellFormed(pool, OneAtATime(pool, done[..n]), done[n].job);
    }
  }

  lemma {:induction false} RunKeepsSafe(s: State, actions: seq<Action>)
    requires Safe(s) && NobodyRobbed(s, actions)
    ensures Safe(Run(s, actions))
    decreases |actions|
  {
    if actions != [] {
      var a := actions[0];
      StepPool(s, a);
      ExclusiveExactly(s, a);
      StepKeepsReadsHold(s, a);
      StepIsOneAtATime(s, a);
      StepKeepsPrintsDone(s, a);
      OneAtATimeIsWellFormed(s.pool, Step(s, a).done);
      RunKeepsSafe(Step(s, a), actions[1..]);
    }
  }

  // In every interleaving in which nobody removes the lock from under a holder,
  // at most one process is inside, and the registry is what the jobs give one at
  // a time in the order they took effect: distinct ports, one row a worktree.
  // Each job, lookups included, came to the port it would have come to so, and
  // only such ports are printed.
  lemma UpdatesLinearize(s: State, actions: seq<Action>)
    requires Start(s) && NobodyRobbed(s, actions)
    ensures Exclusive(Run(s, actions))
    ensures Run(s, actions).rows == OneAtATime(s.pool, Run(s, actions).done)
    ensures ResultsOneAtATime(s.pool, Run(s, actions).done)
    ensures forall d :: d in Run(s, actions).printed ==> d in Run(s, actions).done
    ensures WellFormed(Run(s, actions).rows, s.pool)
  {
    RunKeepsSafe(s, actions);
    RunPool(s, actions);
  }

  lemma {:induction false} RunPool(s: State, actions: seq<Action>)
    requires 0 < s.pool.step
    ensures Run(s, actions).pool == s.pool
    decreases |actions|
  {
    if actions != [] {
      StepPool(s, actions[0]);
      RunPool(Step(s, actions[0]), actions[1..]);
    }
  }

  // Runs without the four actions that can remove a lock from under another.
  predicate Quiet(actions: seq<Action>) {
    forall i :: 0 <= i < |actions| ==>
      !actions[i].GiveUp? && !actions[i].RemoveStale? && !actions[i].Retake? && !actions[i].Interrupt?
  }

  lemma {:induction false} QuietRunsRobNobody(s: State, actions: seq<Action>)
    requires 0 < s.pool.step && Quiet(actions)
    ensures NobodyRobbed(s, actions)
    decreases |actions|
  {
    if actions != [] {
      StepPool(s, actions[0]);
      assert forall i :: 0 <= i < |actions[1..]| ==> actions[1..][i] == actions[i + 1];
      QuietRunsRobNobody(Step(s, actions[0]), actions[1..]);
    }
  }

  // No process stands at its last attempt while the lock is held.
  predicate InTime(s: State) {
    s.locked ==> forall p :: p in s.procs ==> s.procs[p].phase != Waiting(ATTEMPTS)
  }

  predicate InterruptsAWaiter(s: State, a: Action) {
    a.Interrupt? && a.p in s.procs && !Inside(s.procs[a.p].phase)
  }

  predicate Patient(s: State, actions: seq<Action>)
    requires 0 < s.pool.step
    decreases |actions|
  {
    && InTime(s)
    && (actions != [] ==>
          !InterruptsAWaiter(s, actions[0]) && (StepPool(s, actions[0]); Patient(Step(s, actions[0]), actions[1..])))
  }

  predicate NoneStealing(s: State) {
    forall p :: p in s.procs ==> !s.procs[p].phase.Stealing?
  }

  lemma PatientStep(s: State, a: Action)
    requires 0 < s.pool.step && InTime(s) && NoneStealing(s) && !InterruptsAWaiter(s, a)
    ensures !RemovesUnheld(s, a) && NoneStealing(Step(s, a))
  {
  }

  // Runs in which no process reaches its last attempt while the lock is held,
  // and none is interrupted before it holds the lock, rob nobody: holders may
  // be interrupted, and die holding it.
  lemma {:induction false} PatientRunsRobNobody(s: State, actions: seq<Action>)
    requires 0 < s.pool.step && NoneStealing(s) && Patient(s, actions)
    ensures NobodyRobbed(s, actions)
    decreases |actions|
  {
    if actions != [] {
      StepPool(s, actions[0]);
      PatientStep(s, actions[0]);
      PatientRunsRobNobody(Step(s, actions[0]), actions[1..]);
    }
  }

  // ---- Mutual exclusion and the newcomer ---------------------------------------------

  ghost predicate TwoInside(s: State) {
    exists p, q :: p in s.procs && q in s.procs && p != q && Inside(s.procs[p].phase) && Inside(s.procs[q].phase)
  }

  // A process that has not been there before starts and tries once.
  function Knock(s: State, n: nat, job: Job): State
    requires 0 < s.pool.step
  {
    StepPool(s, Spawn(n, job));
    Step(Step(s, Spawn(n, job)), Try(n))
  }

  lemma KnockExactly(s: State, n: nat, job: Job)
    requires 0 < s.pool.step && n !in s.procs
    ensures Exclusive(s) ==> !TwoInside(Knock(s, n, job))
    ensures (exists q :: q in s.procs && Inside(s.procs[q].phase)) && !s.locked ==> TwoInside(Knock(s, n, job))
  {
    var s1 := Step(s, Spawn(n, job));
    if Exclusive(s) {
      assert s1 == s.(procs := s.procs[n := Process(job, Waiting(1))]);
      assert Exclusive(s1);
      ExclusiveExactly(s1, Try(n));
    } else if (exists q :: q in s.procs && Inside(s.procs[q].phase)) && !s.locked {
      var q :| q in s.procs && Inside(s.procs[q].phase);
      var t := Knock(s, n, job);
      assert n in t.procs && t.procs[n].phase.Entered? && q in t.procs && t.procs[q] == s.procs[q] && q != n;
    }
  }

  // A step lets a newcomer in beside a holder exactly when it robs one.
  lemma NewcomerEntersExactly(s: State, a: Action, n: nat, job: Job)
    requires 0 < s.pool.step && Exclusive(s) && n !in Step(s, a).procs
    ensures Step(s, a).pool == s.pool
    ensures TwoInside(Knock(Step(s, a), n, job)) <==> RobsHolder(s, a)
  {
    StepPool(s, a);
    var s' := Step(s, a);
    KnockExactly(s', n, job);
    ExclusiveExactly(s, a);
    if RobsHolder(s, a) {
      var q :| q in s.procs && Inside(s.procs[q].phase);
      assert q in s'.procs && Inside(s'.procs[q].phase) && !s'.locked;
    }
  }

  predicate Absentee(s: State, actions: seq<Action>, n: nat) {
    n !in s.procs && forall i :: 0 <= i < |actions| ==> !(actions[i].Spawn? && actions[i].p == n)
  }

  // At no point of the run would a newcomer be inside beside another.
  ghost predicate NobodyLetIn(s: State, actions: seq<Action>, n: nat, job: Job)
    requires 0 < s.pool.step
    decreases |actions|
  {
    && !TwoInside(Knock(s, n, job))
    && (actions != [] ==> (StepPool(s, actions[0]); NobodyLetIn(Step(s, actions[0]), actions[1..], n, job)))
  }

  // A run keeps everyone, newcomers included, out of a holder's way exactly when
  // nobody in it is robbed.
  lemma {:induction false} ExclusionExactly(s: State, actions: seq<Action>, n: nat, job: Job)
    requires 0 < s.pool.step && Exclusive(s) && Absentee(s, actions, n)
    ensures NobodyLetIn(s, actions, n, job) <==> NobodyRobbed(s, actions)
    decreases |actions|
  {
    KnockExactly(s, n, job);
    if actions != [] {
      var a, s' := actions[0], Step(s, actions[0]);
      StepPool(s, a);
      assert n !in s'.procs;
      NewcomerEntersExactly(s, a, n, job);
      ExclusiveExactly(s, a);
      if !RobsHolder(s, a) {
        assert forall i :: 0 <= i < |actions[1..]| ==> actions[1..][i] == actions[i + 1];
        ExclusionExactly(s', actions[1..], n, job);
      }
    }
  }

  lemma RunThree(s: State, a: Action, b: Action, c: Action)
    requires 0 < s.pool.step
    ensures Step(s, a).pool == s.pool && Step(Step(s, a), b).pool == s.pool
    ensures Run(s, [a, b, c]) == Step(Step(Step(s, a), b), c)
  {
    StepPool(s, a);
    var s1 := Step(s, a);
    StepPool(s1, b);
    var s2 := Step(s1, b);
    StepPool(s2, c);
    assert [a, b, c][1..] == [b, c] && [b, c][1..] == [c] && [c][1..] == [];
    assert Run(s2, [c]) == Step(s2, c);
    assert Run(s1, [b, c]) == Run(s2, [c]);
    assert Run(s, [a, b, c]) == Run(s1, [b, c]);
  }

  // A holder with its port chosen, a process out of attempts, one that waits.
  ghost predicate AtRisk(s: State, p: nat, q: nat, r: nat) {
    && p != q && q != r && r != p && p in s.procs && q in s.procs && r in s.procs && s.locked
    && s.procs[p].phase.Chosen? && s.procs[q].phase == Waiting(ATTEMPTS) && s.procs[r].phase.Waiting?
    && s.procs[r].job.Allocate? && PortOf(s.rows, s.procs[r].job.workdir).None?
  }

  lemma GivingUpLetsIn(s: State, p: nat, q: nat, r: nat)
    requires 0 < s.pool.step && AtRisk(s, p, q, r)
    ensures Run(s, [GiveUp(q), Try(r), Look(r)]) ==
            s.(procs := (s.procs - {q})[r := Process(s.procs[r].job, Absent)])
  {
    var s1 := Step(s, GiveUp(q));
    assert s1 == s.(procs := s.procs - {q}, locked := false);
    var s2 := Step(s1, Try(r));
    assert s2 == s.(procs := (s.procs - {q})[r := Process(s.procs[r].job, Entered)]);
    RunThree(s, GiveUp(q), Try(r), Look(r));
  }

  lemma BothWrite(s: State, p: nat, r: nat)
    requires 0 < s.pool.step && p != r && p in s.procs && r in s.procs
    requires s.procs[p].phase == Chosen(FreePort(s.rows, s.pool)) && s.procs[r].phase.Absent?
    requires s.procs[p].job.Allocate? && s.procs[r].job.Allocate?
    ensures var port, x, y := FreePort(s.rows, s.pool), s.procs[p].job, s.procs[r].job;
            Run(s, [Choose(r), Write(p), Write(r)]).rows ==
              s.rows + [Row(port, x.workdir, x.branch)] + [Row(port, y.workdir, y.branch)]
  {
    RunThree(s, Choose(r), Write(p), Write(r));
    var s1 := Step(s, Choose(r));
    assert s1 == s.(procs := s.procs[r := Process(s.procs[r].job, Chosen(FreePort(s.rows, s.pool)))]);
    var s2 := Step(s1, Write(p));
    assert s2.procs[r] == s1.procs[r];
  }

  // The exit trap of a process that gives up removes a lock it does not hold:
  // while p is inside with its port chosen, q's exit lets r in to choose the
  // very same port.
  lemma GivingUpDuplicatesAPort(s: State, p: nat, q: nat, r: nat) returns (mid: State, s': State)
    requires 0 < s.pool.step && ReadsHold(s) && AtRisk(s, p, q, r)
    ensures mid == Run(s, [GiveUp(q), Try(r), Look(r)]) && mid.pool == s.pool
    ensures s' == Run(mid, [Choose(r), Write(p), Write(r)])
    ensures !Exclusive(mid)
    ensures |s'.rows| == |s.rows| + 2 && s'.rows[|s.rows|].port == s'.rows[|s.rows| + 1].port
    ensures s'.rows[|s.rows|].workdir == s.procs[p].job.workdir
    ensures s'.rows[|s.rows| + 1].workdir == s.procs[r].job.workdir
  {
    GivingUpLetsIn(s, p, q, r);
    mid := Run(s, [GiveUp(q), Try(r), Look(r)]);
    assert p in mid.procs && r in mid.procs && Inside(mid.procs[p].phase) && Inside(mid.procs[r].phase);
    BothWrite(mid, p, r);
    s' := Run(mid, [Choose(r), Write(p), Write(r)]);
  }

  // A waiter gives up, or finds the lock stale, at its fiftieth attempt alone.
  lemma GivesUpExactly(s: State, p: nat)
    requires 0 < s.pool.step && p in s.procs && s.locked
    ensures Step(s, GiveUp(p)) != s <==> s.procs[p].phase == Waiting(50)
    ensures Step(s, RemoveStale(p)) != s <==> s.procs[p].phase == Waiting(50)
    ensures s.procs[p].phase.Waiting? && s.procs[p].phase.attempt < 50 ==>
              Step(s, Try(p)) ==
              s.(procs := s.procs[p := s.procs[p].(phase := Waiting(s.procs[p].phase.attempt + 1))])
  {
    assert p !in Step(s, GiveUp(p)).procs || Step(s, GiveUp(p)) == s;
  }

  // Whatever holder exits, at any point, frees the lock and changes no row.
  lemma LeavingFrees(s: State, p: nat)
    requires 0 < s.pool.step && p in s.procs && Inside(s.procs[p].phase)
    ensures !Step(s, Leave(p)).locked && Step(s, Leave(p)).rows == s.rows
    ensures Step(s, Leave(p)).procs == s.procs - {p} && Step(s, Leave(p)).done == s.done
  {
  }

  // ---- A job with nobody in its way ----------------------------------------------------

  // A fresh process that takes the free lock and reads the registry.
  function Looked(s: State, p: nat, job: Job): State
    requires 0 < s.pool.step
  {
    StepPool(s, Spawn(p, job));
    StepPool(Step(s, Spawn(p, job)), Try(p));
    Step(Step(Step(s, Spawn(p, job)), Try(p)), Look(p))
  }

  lemma LooksAlone(s: State, p: nat, job: Job)
    requires 0 < s.pool.step && p !in s.procs && !s.locked
    ensures Looked(s, p, job) ==
            match job
            case Release(workdir) =>
              s.(locked := true, procs := s.procs[p := Process(job, Filtered(Released(s.rows, workdir)))])
            case Allocate(workdir, _) =>
              if PortOf(s.rows, workdir).None? then s.(locked := true, procs := s.procs[p := Process(job, Absent)])
              else s.(locked := true, procs := s.procs[p := Process(job, Leaving(PortOf(s.rows, workdir)))],
                      done := s.done + [Done(job, PortOf(s.rows, workdir))])
  {
    var s1 := Step(s, Spawn(p, job));
    assert s1 == s.(procs := s.procs[p := Process(job, Waiting(1))]);
    var s2 := Step(s1, Try(p));
    assert s2 == s.(locked := true, procs := s.procs[p := Process(job, Entered)]);
  }

  lemma WritesAlone(s: State, l: State, p: nat, job: Job)
    requires 0 < s.pool.step && p !in s.procs && !s.locked && l == Looked(s, p, job)
    ensures l.pool == s.pool && Step(l, Choose(p)).pool == s.pool
    ensures Step(Step(l, Choose(p)), Write(p)) ==
            s.(locked := true, rows := Updated(s.pool, s.rows, job),
               procs := s.procs[p := Process(job, Leaving(Result(s.pool, s.rows, job)))],
               done := s.done + [Done(job, Result(s.pool, s.rows, job))])
  {
    LooksAlone(s, p, job);
    if job.Allocate? && PortOf(s.rows, job.workdir).None? {
      assert Step(l, Choose(p)) ==
             s.(locked := true, procs := s.procs[p := Process(job, Chosen(FreePort(s.rows, s.pool)))]);
    }
  }

  // Left alone with the lock free, a job does what it should to the registry,
  // prints what it came to, and leaves the lock free.
  lemma JobAlone(s: State, p: nat, job: Job)
    requires 0 < s.pool.step && p !in s.procs && !s.locked
    ensures var l := Looked(s, p, job);
            && l.pool == s.pool && Step(l, Choose(p)).pool == s.pool
            && Step(Step(l, Choose(p)), Write(p)).pool == s.pool
            && Step(Step(Step(l, Choose(p)), Write(p)), Leave(p)) ==
               s.(rows := Updated(s.pool, s.rows, job), done := s.done + [Done(job, Result(s.pool, s.rows, job))],
                  printed := s.printed + [Done(job, Result(s.pool, s.rows, job))])
  {
    WritesAlone(s, Looked(s, p, job), p, job);
    assert s.procs[p := Process(job, Leaving(Result(s.pool, s.rows, job)))] - {p} == s.procs;
  }

  // What that is: a known worktree's port, or the pool's first free one; and
  // after a release no row of the worktree.
  lemma JobMeans(rows: seq<Row>, pool: Pool, job: Job)
    requires 0 < pool.step
    ensures var rows', port := Updated(pool, rows, job), Result(pool, rows, job);
            match job
            case Allocate(workdir, branch) =>
              port.Some? &&
              if exists r :: r in rows && r.workdir == workdir
              then rows' == rows && exists r :: r in rows && r.workdir == workdir && r.port == port.value
              else rows' == rows + [Row(port.value, workdir, branch)] && IsFirstFree(rows, pool, port.value)
            case Release(workdir) =>
              port.None? && forall r :: r in rows' <==> r in rows && r.workdir != workdir
  {
    PortOfFinds(rows, job.workdir);
    FreePortIsFirst(rows, pool);
    if job.Release? {
      forall r ensures r in Released(rows, job.workdir) <==> r in rows && r.workdir != job.workdir {
        ReleasedKeeps(rows, job.workdir, r);
      }
    }
  }

  // ---- The same from the start -------------------------------------------------------

  lemma {:induction false} RunJoins(s: State, a: seq<Action>, b: seq<Action>)
    requires 0 < s.pool.step
    ensures Run(s, a).pool == s.pool
    ensures Run(s, a + b) == Run(Run(s, a), b)
    decreases |a|
  {
    RunPool(s, a);
    if a == [] {
      assert a + b == b;
    } else {
      StepPool(s, a[0]);
      RunJoins(Step(s, a[0]), a[1..], b);
      assert (a + b)[0] == a[0] && (a + b)[1..] == a[1..] + b;
    }
  }

  function Tries(p: nat, n: nat): seq<Action> {
    if n == 0 then [] else [Try(p)] + Tries(p, n - 1)
  }

  lemma {:induction false} TriesWait(s: State, p: nat, attempt: nat, n: nat)
    requires 0 < s.pool.step && s.locked && p in s.procs
    requires s.procs[p].phase == Waiting(attempt) && attempt + n <= ATTEMPTS
    ensures Run(s, Tries(p, n)) == s.(procs := s.procs[p := s.procs[p].(phase := Waiting(attempt + n))])
    decreases n
  {
    if n == 0 {
      assert s.procs[p := s.procs[p]] == s.procs;
    } else {
      var s1 := Step(s, Try(p));
      TriesWait(s1, p, attempt + 1, n - 1);
      assert Tries(p, n)[1..] == Tries(p, n - 1);
      assert s1.procs[p := s1.procs[p].(phase := Waiting(attempt + n))] ==
             s.procs[p := s.procs[p].(phase := Waiting(attempt + n))];
    }
  }

  // Three processes have started, and the first has chosen its port.
  function Opening(x: Job, y: Job, z: Job): seq<Action> {
    [Spawn(0, x), Spawn(1, y), Spawn(2, z)] + [Try(0), Look(0), Choose(0)]
  }

  lemma OpeningOpens(s: State, x: Job, y: Job, z: Job)
    requires Start(s) && x.Allocate?
    ensures Run(s, Opening(x, y, z)) ==
            s.(locked := true, procs := map[0 := Process(x, Chosen(FreePort([], s.pool))), 1 := Process(y, Waiting(1)),
                                            2 := Process(z, Waiting(1))])
  {
    var spawns, turns := [Spawn(0, x), Spawn(1, y), Spawn(2, z)], [Try(0), Look(0), Choose(0)];
    var o := s.(procs := map[0 := Process(x, Waiting(1)), 1 := Process(y, Waiting(1)), 2 := Process(z, Waiting(1))]);
    RunJoins(s, spawns, turns);
    RunThree(s, Spawn(0, x), Spawn(1, y), Spawn(2, z));
    assert Run(s, spawns) == o;
    RunThree(o, Try(0), Look(0), Choose(0));
    assert Run(o, turns).procs == map[0 := Process(x, Chosen(FreePort([], s.pool))), 1 := Process(y, Waiting(1)),
                                      2 := Process(z, Waiting(1))];
  }

  lemma QuietFromStartIsSafe(s: State, actions: seq<Action>)
    requires Start(s) && Quiet(actions)
    ensures Safe(Run(s, actions))
  {
    OneAtATimeIsWellFormed(s.pool, []);
    QuietRunsRobNobody(s, actions);
    RunKeepsSafe(s, actions);
  }

  lemma {:induction false} TriesAreTries(p: nat, n: nat)
    ensures forall i :: 0 <= i < |Tries(p, n)| ==> Tries(p, n)[i] == Try(p)
  {
    if n > 0 {
      TriesAreTries(p, n - 1);
    }
  }

  // A process has waited out its attempts while the first chose its port.
  lemma OutOfAttempts(s: State, x: Job, y: Job, z: Job)
    requires Start(s) && x.Allocate? && z.Allocate?
    ensures var r := Run(s, Opening(x, y, z) + Tries(1, ATTEMPTS - 1));
            && r.pool == s.pool && r.rows == [] && ReadsHold(r) && AtRisk(r, 0, 1, 2)
            && r.procs[0].job == x && r.procs[2].job == z
  {
    OpeningOpens(s, x, y, z);
    RunJoins(s, Opening(x, y, z), Tries(1, ATTEMPTS - 1));
    TriesWait(Run(s, Opening(x, y, z)), 1, 1, ATTEMPTS - 1);
    TriesAreTries(1, ATTEMPTS - 1);
    QuietFromStartIsSafe(s, Opening(x, y, z) + Tries(1, ATTEMPTS - 1));
    RunPool(s, Opening(x, y, z) + Tries(1, ATTEMPTS - 1));
  }

  // From the start, with an empty registry, two worktrees get one port.
  lemma TwoWorktreesGetOnePort(s: State, x: Job, y: Job, z: Job) returns (actions: seq<Action>)
    requires Start(s) && x.Allocate? && z.Allocate?
    ensures var rows := Run(s, actions).rows;
            |rows| == 2 && rows[0].workdir == x.workdir && rows[1].workdir == z.workdir && rows[0].port == rows[1].port
  {
    var before := Opening(x, y, z) + Tries(1, ATTEMPTS - 1);
    OutOfAttempts(s, x, y, z);
    var waiting := Run(s, before);
    var mid, end := GivingUpDuplicatesAPort(waiting, 0, 1, 2);
    var first, last := [GiveUp(1), Try(2), Look(2)], [Choose(2), Write(0), Write(2)];
    actions := before + (first + last);
    RunJoins(s, before, first + last);
    RunJoins(waiting, first, last);
  }
}
