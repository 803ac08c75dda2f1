// The handlers around the throttle (web/handlers_auth.go): checking and
// recording are separate statements, so requests interleave between them.
module ThrottleRequests {
  import opened Sets
  import opened Throttle

  datatype Kind = Signin | ResetMail

  // One client address and one normalised (trimmed, lower-cased) email.
  datatype Client = Client(kind: Kind, ip: string, email: string)

  // A socket address is neither empty of meaning nor able to hold the separator.
  predicate ValidIp(ip: string) {
    '|' !in ip && ip != "reset"
  }

  function ThrottleKey(c: Client): string {
    match c.kind
    case Signin => c.ip + "|" + c.email
    case ResetMail => "reset|" + c.ip + "|" + c.email
  }

  lemma BarSplits(a: string, x: string, b: string, y: string)
    requires '|' !in a && '|' !in b && a + "|" + x == b + "|" + y
    ensures a == b && x == y
  {
    var s := a + "|" + x;
    assert s[|a|] == '|' && s[|b|] == '|';
    assert forall i :: 0 <= i < |a| ==> s[i] == a[i];
    assert forall i :: 0 <= i < |b| ==> s[i] == b[i];
    assert a == s[..|a|] == b;
    assert x == s[|a| + 1..] == y;
  }

  // Every (purpose, address, email) has a budget of its own.
  lemma KeysAreInjective(c: Client, d: Client)
    requires ValidIp(c.ip) && ValidIp(d.ip)
    ensures ThrottleKey(c) == ThrottleKey(d) <==> c == d
  {
    if ThrottleKey(c) == ThrottleKey(d) {
      var c', d' := c.ip + "|" + c.email, d.ip + "|" + d.email;
      if c.kind == d.kind == ResetMail {
        assert ThrottleKey(c) == "reset" + "|" + c' && ThrottleKey(d) == "reset" + "|" + d';
        BarSplits("reset", c', "reset", d');
      } else if c.kind == ResetMail {
        assert ThrottleKey(c) == "reset" + "|" + c';
        BarSplits("reset", c', d.ip, d.email);
      } else if d.kind == ResetMail {
        assert ThrottleKey(d) == "reset" + "|" + d';
        BarSplits(c.ip, c.email, "reset", d');
      }
      BarSplits(c.ip, c.email, d.ip, d.email);
    }
  }

  // Where a request stands after its check let it through.
  datatype Phase = Passed | Rejected | Accepted | Swept | Recorded(at: int)

  datatype Request = Request(client: Client, key: string, phase: Phase)

  // jobs holds one entry per enqueued reset mail, dated by the attempt it was
  // recorded under; sentAt dates the same mails by their enqueueing.
  datatype State = State(clock: int, log: seq<Statement>, requests: map<nat, Request>, jobs: seq<Attempt>,
                         sentAt: seq<int>)

  datatype Action =
    | Tick(elapsed: nat)
    | Check(id: nat, client: Client)
    | Authenticate(id: nat, ok: bool)
    | SweepFor(id: nat)
    | RecordFor(id: nat)
    | ClearFor(id: nat)
    | Enqueue(id: nat)
    | Abandon(id: nat)

  predicate Ready(s: State, id: nat, kind: Kind, phase: Phase) {
    id in s.requests && s.requests[id].client.kind == kind && s.requests[id].phase == phase
  }

  function Move(s: State, id: nat, phase: Phase): State
    requires id in s.requests
  {
    s.(requests := s.requests[id := s.requests[id].(phase := phase)])
  }

  // One statement or one in-memory transition of one request; an action that
  // is not enabled changes nothing.
  function Step(s: State, a: Action): State {
    match a
    case Tick(elapsed) => s.(clock := s.clock + elapsed)
    case Check(id, client) =>
      var key := ThrottleKey(client);
      if id in s.requests || !ValidIp(client.ip) || Blocked(Table(s.log), key, s.clock) then s else
      s.(requests := s.requests[id := Request(client, key, Passed)])
    case Authenticate(id, ok) =>
      if Ready(s, id, Signin, Passed) then Move(s, id, if ok then Accepted else Rejected) else s
    case SweepFor(id) =>
      if Ready(s, id, Signin, Rejected) || Ready(s, id, ResetMail, Passed) then
        Move(s, id, Swept).(log := s.log + [Sweep(s.clock)])
      else s
    case RecordFor(id) =>
      if Ready(s, id, Signin, Swept) then
        s.(log := s.log + [Record(s.requests[id].key, s.clock)], requests := s.requests - {id})
      else if Ready(s, id, ResetMail, Swept) then
        Move(s, id, Recorded(s.clock)).(log := s.log + [Record(s.requests[id].key, s.clock)])
      else s
    case ClearFor(id) =>
      if Ready(s, id, Signin, Accepted) then
        s.(log := s.log + [Clear(s.requests[id].key, s.clock)], requests := s.requests - {id})
      else s
    case Enqueue(id) =>
      if id in s.requests && s.requests[id].phase.Recorded? then
        s.(jobs := s.jobs + [Attempt(s.requests[id].key, s.requests[id].phase.at)], sentAt := s.sentAt + [s.clock],
           requests := s.requests - {id})
      else s
    case Abandon(id) => s.(requests := s.requests - {id})
  }

  function Run(s: State, actions: seq<Action>): State
    decreases |actions|
  {
    if actions == [] then s else Run(Step(s, actions[0]), actions[1..])
  }

  predicate Start(s: State) {
    s.log == [] && s.requests == map[] && s.jobs == [] && s.sentAt == []
  }

  // The requests on key between passing the check and recording.
  function InFlight(s: State, key: string): set<nat> {
    set id | id in s.requests && s.requests[id].key == key && !s.requests[id].phase.Recorded?
  }

  predicate AtMostInFlight(s: State, actions: seq<Action>, key: string, c: nat)
    decreases |actions|
  {
    |InFlight(s, key)| <= c && (actions != [] ==> AtMostInFlight(Step(s, actions[0]), actions[1..], key, c))
  }

  // Attempts in the window (lo, lo + WINDOW].
  function Within(rows: seq<Attempt>, key: string, lo: int): nat {
    if rows == [] then 0 else
      var a := rows[|rows| - 1];
      Within(rows[..|rows| - 1], key, lo) + if a.key == key && lo < a.at <= lo + WINDOW then 1 else 0
  }

  function Load(log: seq<Statement>, key: string, lo: int): nat {
    Within(SinceReset(log, key), key, lo)
  }

  lemma {:induction false} WithinIsCounted(rows: seq<Attempt>, key: string, lo: int, cutoff: int)
    requires cutoff <= lo
    ensures Within(rows, key, lo) <= Count(rows, key, cutoff)
  {
    if rows != [] {
      WithinIsCounted(rows[..|rows| - 1], key, lo, cutoff);
    }
  }

  lemma WithinAppend(rows: seq<Attempt>, a: Attempt, key: string, lo: int)
    ensures Within(rows + [a], key, lo) ==
            Within(rows, key, lo) + if a.key == key && lo < a.at <= lo + WINDOW then 1 else 0
  {
    assert (rows + [a])[..|rows|] == rows;
  }

  lemma LoadAppend(log: seq<Statement>, s: Statement, key: string, lo: int)
    ensures Load(log + [s], key, lo) ==
            match s
            case Sweep(_) => Load(log, key, lo)
            case Record(k, now) => Load(log, key, lo) + if k == key && lo < now <= lo + WINDOW then 1 else 0
            case Clear(k, _) => if k == key then 0 else Load(log, key, lo)
  {
    Append(log, s);
    if s.Record? {
      WithinAppend(SinceReset(log, key), Attempt(key, s.now), key, lo);
    }
  }

  // Once a window still open holds LIMIT attempts, no new check passes, so its
  // attempts and the requests already in flight can only trade places.
  ghost predicate Bounded(s: State, key: string, c: nat) {
    && Timed(s.log, s.clock)
    && (forall j, lo :: 0 <= j <= |s.log| ==> Load(s.log[..j], key, lo) <= LIMIT - 1 + c)
    && (forall lo :: s.clock <= lo + WINDOW && Load(s.log, key, lo) >= LIMIT ==>
          Load(s.log, key, lo) + |InFlight(s, key)| <= LIMIT - 1 + c)
  }

  lemma CheckKeepsBound(s: State, id: nat, client: Client, key: string, c: nat)
    requires Bounded(s, key, c)
    ensures Bounded(Step(s, Check(id, client)), key, c)
  {
    var s' := Step(s, Check(id, client));
    if s' != s {
      if ThrottleKey(client) == key {
        forall lo | s.clock <= lo + WINDOW ensures Load(s.log, key, lo) < LIMIT {
          PrunedTableRefinesLog(s.log, key, s.clock);
          WithinIsCounted(SinceReset(s.log, key), key, lo, s.clock - WINDOW);
        }
      } else {
        assert InFlight(s', key) == InFlight(s, key);
      }
    }
  }

  // A logged statement by id: the log grows by it, id's key loses or keeps id.
  lemma LoggedKeepsBound(s: State, stmt: Statement, s': State, key: string, c: nat)
    requires Bounded(s, key, c) && |InFlight(s, key)| <= c
    requires s'.log == s.log + [stmt] && s'.clock == s.clock == stmt.now
    requires InFlight(s', key) <= InFlight(s, key)
    requires (stmt.Record? && stmt.key == key ==>
                exists id :: id in InFlight(s, key) && InFlight(s', key) == InFlight(s, key) - {id})
    ensures Bounded(s', key, c)
  {
    assert |InFlight(s', key)| <= |InFlight(s, key)| by { SubsetIsSmaller(InFlight(s', key), InFlight(s, key)); }
    forall lo
      ensures Load(s'.log, key, lo) <= LIMIT - 1 + c
      ensures s.clock <= lo + WINDOW && Load(s'.log, key, lo) >= LIMIT ==>
                Load(s'.log, key, lo) + |InFlight(s', key)| <= LIMIT - 1 + c
    {
      LoadAppend(s.log, stmt, key, lo);
      assert s.log[..|s.log|] == s.log;
    }
    forall j, lo | 0 <= j <= |s'.log| ensures Load(s'.log[..j], key, lo) <= LIMIT - 1 + c {
      if j <= |s.log| {
        assert s'.log[..j] == s.log[..j];
      } else {
        assert s'.log[..j] == s'.log;
      }
    }
  }

  // Only a check adds to the requests in flight, and a recording takes one out.
  lemma InFlightShrinks(s: State, a: Action, key: string)
    requires !a.Check?
    ensures InFlight(Step(s, a), key) <= InFlight(s, key)
    ensures var log := Step(s, a).log;
            || log == s.log
            || (&& |log| == |s.log| + 1 && log == s.log + [log[|s.log|]]
                && log[|s.log|].now == s.clock == Step(s, a).clock
                && (log[|s.log|].Record? && log[|s.log|].key == key ==>
                      exists id :: id in InFlight(s, key) && InFlight(Step(s, a), key) == InFlight(s, key) - {id}))
  {
    var s' := Step(s, a);
    if a.RecordFor? && s' != s && s.requests[a.id].key == key {
      assert a.id in InFlight(s, key) && InFlight(s', key) == InFlight(s, key) - {a.id};
    }
  }

  lemma StepKeepsBound(s: State, a: Action, key: string, c: nat)
    requires Bounded(s, key, c) && |InFlight(s, key)| <= c
    ensures Bounded(Step(s, a), key, c)
  {
    var s' := Step(s, a);
    if a.Check? {
      CheckKeepsBound(s, a.id, a.client, key, c);
    } else {
      InFlightShrinks(s, a, key);
      if s'.log == s.log {
        SubsetIsSmaller(InFlight(s', key), InFlight(s, key));
      } else {
        LoggedKeepsBound(s, s'.log[|s.log|], s', key, c);
      }
    }
  }

  lemma {:induction false} RunKeepsBound(s: State, actions: seq<Action>, key: string, c: nat)
    requires Bounded(s, key, c) && AtMostInFlight(s, actions, key, c)
    ensures Bounded(Run(s, actions), key, c)
    decreases |actions|
  {
    if actions != [] {
      StepKeepsBound(s, actions[0], key, c);
      RunKeepsBound(Step(s, actions[0]), actions[1..], key, c);
    }
  }

  function Attempts(log: seq<Statement>, key: string, lo: int): nat {
    if log == [] then 0 else
      var s := log[|log| - 1];
      Attempts(log[..|log| - 1], key, lo) + if s.Record? && s.key == key && lo < s.now <= lo + WINDOW then 1 else 0
  }

  lemma {:induction false} SegmentIsLoad(log: seq<Statement>, i: nat, key: string, lo: int)
    requires i <= |log| && forall k :: i <= k < |log| ==> !(log[k].Clear? && log[k].key == key)
    ensures Attempts(log[i..], key, lo) <= Load(log, key, lo)
  {
    if i < |log| {
      var init, s := log[..|log| - 1], log[|log| - 1];
      SegmentIsLoad(init, i, key, lo);
      assert log[i..][..|log| - i - 1] == init[i..];
      assert log == init + [s];
      LoadAppend(init, s, key, lo);
    }
  }

  // In every interleaving, if at most c requests on key are ever between their
  // check and their recording, no stretch of the run without a reset of key
  // holds more than LIMIT - 1 + c of its attempts in one window.
  lemma AttemptsPerWindow(s: State, actions: seq<Action>, key: string, c: nat, i: nat, j: nat, lo: int)
    requires Start(s) && AtMostInFlight(s, actions, key, c)
    requires i <= j <= |Run(s, actions).log|
    requires forall k :: i <= k < j ==> !(Run(s, actions).log[k].Clear? && Run(s, actions).log[k].key == key)
    ensures Attempts(Run(s, actions).log[i..j], key, lo) <= LIMIT - 1 + c
  {
    RunKeepsBound(s, actions, key, c);
    var log := Run(s, actions).log;
    SegmentIsLoad(log[..j], i, key, lo);
    assert log[..j][i..] == log[i..j];
  }

  // Reset mails: recorded requests not yet enqueued, and those already sent.
  function Awaiting(s: State, key: string, lo: int): set<nat> {
    set id | id in s.requests && s.requests[id].key == key
             && s.requests[id].phase.Recorded? && lo < s.requests[id].phase.at <= lo + WINDOW
  }

  ghost predicate KeysOwned(s: State) {
    forall id :: id in s.requests ==>
      ValidIp(s.requests[id].client.ip) && s.requests[id].key == ThrottleKey(s.requests[id].client)
  }

  ghost predicate NeverCleared(log: seq<Statement>, key: string) {
    forall k :: 0 <= k < |log| ==> !(log[k].Clear? && log[k].key == key)
  }

  ghost predicate MailsCovered(s: State, key: string, lo: int) {
    && KeysOwned(s)
    && NeverCleared(s.log, key)
    && Within(s.jobs, key, lo) + |Awaiting(s, key, lo)| <= Attempts(s.log, key, lo)
  }

  lemma AttemptsAppend(log: seq<Statement>, s: Statement, key: string, lo: int)
    ensures Attempts(log + [s], key, lo) ==
            Attempts(log, key, lo) + if s.Record? && s.key == key && lo < s.now <= lo + WINDOW then 1 else 0
  {
    assert (log + [s])[..|log|] == log;
  }

  // An action records into a window at most one request that then awaits its
  // enqueueing, and enqueues only a request that was awaiting.
  lemma AwaitingMoves(s: State, a: Action, key: string, lo: int)
    ensures var s' := Step(s, a);
            var before, after := Awaiting(s, key, lo), Awaiting(s', key, lo);
            if s'.log != s.log then
              && |s'.log| == |s.log| + 1 && s'.log == s.log + [s'.log[|s.log|]] && s'.jobs == s.jobs
              && var stmt := s'.log[|s.log|];
                 if stmt.Record? && stmt.key == key && lo < stmt.now <= lo + WINDOW
                 then exists id :: after <= before + {id} else after <= before
            else if s'.jobs != s.jobs then
              && |s'.jobs| == |s.jobs| + 1 && s'.jobs == s.jobs + [s'.jobs[|s.jobs|]]
              && var job := s'.jobs[|s.jobs|];
                 if job.key == key && lo < job.at <= lo + WINDOW
                 then exists id :: id in before && after == before - {id} else after <= before
            else after <= before
  {
    var s' := Step(s, a);
    if a.RecordFor? && s' != s {
      assert Awaiting(s', key, lo) <= Awaiting(s, key, lo) + {a.id};
    } else if a.Enqueue? && s' != s {
      assert Awaiting(s', key, lo) == Awaiting(s, key, lo) - {a.id};
    }
  }

  lemma MailsBalance(s: State, s': State, key: string, lo: int)
    requires Within(s.jobs, key, lo) + |Awaiting(s, key, lo)| <= Attempts(s.log, key, lo)
    requires exists a :: Step(s, a) == s'
    ensures Within(s'.jobs, key, lo) + |Awaiting(s', key, lo)| <= Attempts(s'.log, key, lo)
  {
    var a :| Step(s, a) == s';
    AwaitingMoves(s, a, key, lo);
    var before, after := Awaiting(s, key, lo), Awaiting(s', key, lo);
    if s'.log != s.log {
      AttemptsAppend(s.log, s'.log[|s.log|], key, lo);
      if id :| after <= before + {id} {
        SubsetIsSmaller(after, before + {id});
      }
    } else if s'.jobs != s.jobs {
      WithinAppend(s.jobs, s'.jobs[|s.jobs|], key, lo);
    }
    if after <= before {
      SubsetIsSmaller(after, before);
    }
  }

  lemma StepClearsNoMailKey(s: State, a: Action, mail: Client)
    requires mail.kind == ResetMail && ValidIp(mail.ip)
    requires KeysOwned(s) && NeverCleared(s.log, ThrottleKey(mail))
    ensures KeysOwned(Step(s, a)) && NeverCleared(Step(s, a).log, ThrottleKey(mail))
  {
    if a.ClearFor? && a.id in s.requests {
      KeysAreInjective(s.requests[a.id].client, mail);
    }
  }

  lemma StepKeepsMailsCovered(s: State, a: Action, mail: Client, lo: int)
    requires mail.kind == ResetMail && ValidIp(mail.ip)
    requires MailsCovered(s, ThrottleKey(mail), lo)
    ensures MailsCovered(Step(s, a), ThrottleKey(mail), lo)
  {
    MailsBalance(s, Step(s, a), ThrottleKey(mail), lo);
    StepClearsNoMailKey(s, a, mail);
  }

  lemma {:induction false} RunKeepsMailsCovered(s: State, actions: seq<Action>, mail: Client, lo: int)
    requires mail.kind == ResetMail && ValidIp(mail.ip)
    requires MailsCovered(s, ThrottleKey(mail), lo)
    ensures MailsCovered(Run(s, actions), ThrottleKey(mail), lo)
    decreases |actions|
  {
    if actions != [] {
      StepKeepsMailsCovered(s, actions[0], mail, lo);
      RunKeepsMailsCovered(Step(s, actions[0]), actions[1..], mail, lo);
    }
  }

  // Nothing ever clears a reset-mail budget, so the bound on mails holds over
  // the whole run: no window's recorded requests enqueue more than this.
  lemma MailsPerWindow(s: State, actions: seq<Action>, mail: Client, c: nat, lo: int)
    requires mail.kind == ResetMail && ValidIp(mail.ip)
    requires Start(s) && AtMostInFlight(s, actions, ThrottleKey(mail), c)
    ensures Within(Run(s, actions).jobs, ThrottleKey(mail), lo) <= LIMIT - 1 + c
  {
    var key, log := ThrottleKey(mail), Run(s, actions).log;
    RunKeepsMailsCovered(s, actions, mail, lo);
    AttemptsPerWindow(s, actions, key, c, 0, |log|, lo);
    assert log[0..|log|] == log;
  }

  // The bound is attained, for every c: c checks pass beside four recorded
  // failures, and all c record. So LIMIT itself holds only for c == 1.
  function Failures(key: string, at: int, n: nat): seq<Statement> {
    if n == 0 then [] else Failures(key, at, n - 1) + [Sweep(at), Record(key, at)]
  }

  // n recorded failures and m requests of one client just past their check.
  function Burst(client: Client, at: int, n: nat, m: nat): State {
    var key := ThrottleKey(client);
    State(at, Failures(key, at, n), Waiting(client, m), [], [])
  }

  function Waiting(client: Client, m: nat): (requests: map<nat, Request>)
    ensures forall id: nat :: id in requests <==> id < m
    ensures forall id :: id in requests ==> requests[id] == Request(client, ThrottleKey(client), Passed)
  {
    if m == 0 then map[] else Waiting(client, m - 1)[m - 1 := Request(client, ThrottleKey(client), Passed)]
  }

  ghost predicate Reaches(s: State, s': State, key: string, c: nat) {
    exists actions :: Run(s, actions) == s' && AtMostInFlight(s, actions, key, c)
  }

  lemma {:induction false} RunJoins(s: State, a: seq<Action>, b: seq<Action>, key: string, c: nat)
    requires AtMostInFlight(s, a, key, c) && AtMostInFlight(Run(s, a), b, key, c)
    ensures Run(s, a + b) == Run(Run(s, a), b) && AtMostInFlight(s, a + b, key, c)
    decreases |a|
  {
    if a == [] {
      assert a + b == b;
    } else {
      assert (a + b)[1..] == a[1..] + b;
      RunJoins(Step(s, a[0]), a[1..], b, key, c);
    }
  }

  lemma ReachesJoins(s: State, mid: State, s': State, key: string, c: nat)
    requires Reaches(s, mid, key, c) && Reaches(mid, s', key, c)
    ensures Reaches(s, s', key, c)
  {
    var a :| Run(s, a) == mid && AtMostInFlight(s, a, key, c);
    var b :| Run(mid, b) == s' && AtMostInFlight(mid, b, key, c);
    RunJoins(s, a, b, key, c);
    assert Run(s, a + b) == s';
  }

  lemma AppendCounts(attempts: seq<Attempt>, key: string, at: int)
    ensures Within(attempts + [Attempt(key, at)], key, at - WINDOW) == Within(attempts, key, at - WINDOW) + 1
    ensures Count(attempts + [Attempt(key, at)], key, at - WINDOW) == Count(attempts, key, at - WINDOW) + 1
  {
    assert (attempts + [Attempt(key, at)])[..|attempts|] == attempts;
  }

  lemma FailuresStep(key: string, at: int, n: nat)
    ensures SinceReset(Failures(key, at, n + 1), key) == SinceReset(Failures(key, at, n), key) + [Attempt(key, at)]
  {
    var before := Failures(key, at, n);
    assert Failures(key, at, n + 1) == (before + [Sweep(at)]) + [Record(key, at)];
    Append(before, Sweep(at));
    Append(before + [Sweep(at)], Record(key, at));
  }

  lemma {:induction false} FailuresTimed(key: string, at: int, n: nat)
    ensures forall i :: 0 <= i < |Failures(key, at, n)| ==> Failures(key, at, n)[i].now == at
  {
    if n > 0 {
      FailuresTimed(key, at, n - 1);
    }
  }

  lemma OneMoreCounts(before: seq<Attempt>, after: seq<Attempt>, key: string, at: int, n: nat)
    requires after == before + [Attempt(key, at)]
    requires Within(before, key, at - WINDOW) == n && Count(before, key, at - WINDOW) == n
    ensures Within(after, key, at - WINDOW) == n + 1 && Count(after, key, at - WINDOW) == n + 1
  {
    AppendCounts(before, key, at);
  }

  lemma {:induction false} FailuresCount(key: string, at: int, n: nat)
    ensures Load(Failures(key, at, n), key, at - WINDOW) == n
    ensures Count(SinceReset(Failures(key, at, n), key), key, at - WINDOW) == n
  {
    if n > 0 {
      FailuresCount(key, at, n - 1);
      FailuresStep(key, at, n - 1);
      OneMoreCounts(SinceReset(Failures(key, at, n - 1), key), SinceReset(Failures(key, at, n), key), key, at, n - 1);
    }
  }

  lemma {:induction false} InFlightOfBurst(client: Client, at: int, n: nat, m: nat)
    ensures |InFlight(Burst(client, at, n, m), ThrottleKey(client))| == m
  {
    var ids := InFlight(Burst(client, at, n, m), ThrottleKey(client));
    if m == 0 {
      assert ids == {};
    } else {
      InFlightOfBurst(client, at, n, m - 1);
      assert ids == InFlight(Burst(client, at, n, m - 1), ThrottleKey(client)) + {m - 1};
    }
  }

  lemma OneStep(s: State, a: Action, key: string, c: nat)
    requires |InFlight(s, key)| <= c && |InFlight(Step(s, a), key)| <= c
    ensures Reaches(s, Step(s, a), key, c)
  {
    assert [a][1..] == [];
    assert AtMostInFlight(Step(s, a), [], key, c);
    assert Run(s, [a]) == Step(s, a) && AtMostInFlight(s, [a], key, c);
  }

  lemma CheckStep(client: Client, at: int, n: nat, m: nat)
    requires ValidIp(client.ip) && n < LIMIT
    ensures Step(Burst(client, at, n, m), Check(m, client)) == Burst(client, at, n, m + 1)
  {
    var key, s := ThrottleKey(client), Burst(client, at, n, m);
    FailuresCount(key, at, n);
    FailuresTimed(key, at, n);
    PrunedTableRefinesLog(s.log, key, at);
    assert Burst(client, at, n, m + 1).requests == s.requests[m := Request(client, key, Passed)];
  }

  lemma AnotherPasses(client: Client, at: int, n: nat, m: nat, c: nat)
    requires ValidIp(client.ip) && n < LIMIT && m < c
    ensures Reaches(Burst(client, at, n, m), Burst(client, at, n, m + 1), ThrottleKey(client), c)
  {
    CheckStep(client, at, n, m);
    InFlightOfBurst(client, at, n, m);
    InFlightOfBurst(client, at, n, m + 1);
    OneStep(Burst(client, at, n, m), Check(m, client), ThrottleKey(client), c);
  }

  // The last waiting request fails its compare, sweeps and records.
  lemma FailureSteps(client: Client, at: int, n: nat, m: nat)
    requires client.kind == Signin && 0 < m
    ensures var s, id := Burst(client, at, n, m), m - 1;
            var s1 := Step(s, Authenticate(id, false));
            var s2 := Step(s1, SweepFor(id));
            && Step(s2, RecordFor(id)) == Burst(client, at, n + 1, m - 1)
            && InFlight(s1, ThrottleKey(client)) == InFlight(s, ThrottleKey(client))
            && InFlight(s2, ThrottleKey(client)) == InFlight(s, ThrottleKey(client))
  {
    var s, s', id := Burst(client, at, n, m), Burst(client, at, n + 1, m - 1), m - 1;
    var s1 := Step(s, Authenticate(id, false));
    var s2 := Step(s1, SweepFor(id));
    assert s2.requests == s.requests[id := Request(client, ThrottleKey(client), Swept)];
    assert s'.requests == s2.requests - {id};
    assert s'.log == s2.log + [Record(ThrottleKey(client), at)];
  }

  lemma ThreeSteps(s: State, a: Action, b: Action, d: Action, s': State, key: string, c: nat)
    requires Step(Step(Step(s, a), b), d) == s'
    requires |InFlight(s, key)| <= c && |InFlight(s', key)| <= c
    requires InFlight(Step(s, a), key) == InFlight(s, key) == InFlight(Step(Step(s, a), b), key)
    ensures Reaches(s, s', key, c)
  {
    var s1, s2 := Step(s, a), Step(Step(s, a), b);
    OneStep(s, a, key, c);
    OneStep(s1, b, key, c);
    OneStep(s2, d, key, c);
    ReachesJoins(s, s1, s2, key, c);
    ReachesJoins(s, s2, s', key, c);
  }

  lemma AnotherFails(client: Client, at: int, n: nat, m: nat, c: nat)
    requires client.kind == Signin && 0 < m <= c
    ensures Reaches(Burst(client, at, n, m), Burst(client, at, n + 1, m - 1), ThrottleKey(client), c)
  {
    var s, s', id := Burst(client, at, n, m), Burst(client, at, n + 1, m - 1), m - 1;
    FailureSteps(client, at, n, m);
    InFlightOfBurst(client, at, n, m);
    InFlightOfBurst(client, at, n + 1, m - 1);
    ThreeSteps(s, Authenticate(id, false), SweepFor(id), RecordFor(id), s', ThrottleKey(client), c);
  }

  lemma {:induction false} BurstGrows(client: Client, at: int, n: nat, m: nat, c: nat)
    requires ValidIp(client.ip) && n < LIMIT && m <= c
    ensures Reaches(Burst(client, at, n, m), Burst(client, at, n, c), ThrottleKey(client), c)
    decreases c - m
  {
    var s, key := Burst(client, at, n, m), ThrottleKey(client);
    if m == c {
      InFlightOfBurst(client, at, n, m);
      assert Run(s, []) == s && AtMostInFlight(s, [], key, c);
    } else {
      AnotherPasses(client, at, n, m, c);
      BurstGrows(client, at, n, m + 1, c);
      ReachesJoins(s, Burst(client, at, n, m + 1), Burst(client, at, n, c), key, c);
    }
  }

  lemma {:induction false} BurstRecords(client: Client, at: int, n: nat, m: nat, c: nat)
    requires client.kind == Signin && m <= c
    ensures Reaches(Burst(client, at, n, m), Burst(client, at, n + m, 0), ThrottleKey(client), c)
    decreases m
  {
    var s, key := Burst(client, at, n, m), ThrottleKey(client);
    if m == 0 {
      InFlightOfBurst(client, at, n, m);
      assert Run(s, []) == s && AtMostInFlight(s, [], key, c);
    } else {
      AnotherFails(client, at, n, m, c);
      BurstRecords(client, at, n + 1, m - 1, c);
      ReachesJoins(s, Burst(client, at, n + 1, m - 1), Burst(client, at, n + m, 0), key, c);
    }
  }

  lemma {:induction false} FailuresGrow(client: Client, at: int, n: nat, c: nat)
    requires client.kind == Signin && ValidIp(client.ip) && n < LIMIT && 0 < c
    ensures Reaches(Burst(client, at, 0, 0), Burst(client, at, n, 0), ThrottleKey(client), c)
    decreases n
  {
    var s, key := Burst(client, at, 0, 0), ThrottleKey(client);
    if n == 0 {
      InFlightOfBurst(client, at, 0, 0);
      assert Run(s, []) == s && AtMostInFlight(s, [], key, c);
    } else {
      FailuresGrow(client, at, n - 1, c);
      AnotherPasses(client, at, n - 1, 0, c);
      AnotherFails(client, at, n - 1, 1, c);
      ReachesJoins(s, Burst(client, at, n - 1, 0), Burst(client, at, n - 1, 1), key, c);
      ReachesJoins(s, Burst(client, at, n - 1, 1), Burst(client, at, n, 0), key, c);
    }
  }

  lemma BoundIsAttained(client: Client, at: int, c: nat) returns (actions: seq<Action>)
    requires client.kind == Signin && ValidIp(client.ip) && 0 < c
    ensures Start(Burst(client, at, 0, 0)) && AtMostInFlight(Burst(client, at, 0, 0), actions, ThrottleKey(client), c)
    ensures Load(Run(Burst(client, at, 0, 0), actions).log, ThrottleKey(client), at - WINDOW) == LIMIT - 1 + c
  {
    var s, key, n := Burst(client, at, 0, 0), ThrottleKey(client), LIMIT - 1;
    FailuresGrow(client, at, n, c);
    BurstGrows(client, at, n, 0, c);
    BurstRecords(client, at, n, c, c);
    ReachesJoins(s, Burst(client, at, n, 0), Burst(client, at, n, c), key, c);
    ReachesJoins(s, Burst(client, at, n, c), Burst(client, at, n + c, 0), key, c);
    actions :| Run(s, actions) == Burst(client, at, n + c, 0) && AtMostInFlight(s, actions, key, c);
    FailuresCount(key, at, n + c);
  }
}
