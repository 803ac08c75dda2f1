// What becomes of a request that passed its throttle (web/handlers_auth.go):
// a right password clears, each wrong one counts, each recorded reset mails.
module ThrottleOutcomes {
  import opened Throttle
  import opened ThrottleMails
  import opened ThrottleRequests

  // ---- The clock of the log --------------------------------------------------------

  lemma StepKeepsTimed(s: State, a: Action)
    requires Timed(s.log, s.clock)
    ensures Timed(Step(s, a).log, Step(s, a).clock)
  {
  }

  lemma StepKeepsOwned(s: State, a: Action)
    requires KeysOwned(s)
    ensures KeysOwned(Step(s, a))
  {
  }

  lemma {:induction false} RunKeepsTimed(s: State, actions: seq<Action>)
    requires Timed(s.log, s.clock) && KeysOwned(s)
    ensures Timed(Run(s, actions).log, Run(s, actions).clock) && KeysOwned(Run(s, actions))
    decreases |actions|
  {
    if actions != [] {
      StepKeepsTimed(s, actions[0]);
      StepKeepsOwned(s, actions[0]);
      RunKeepsTimed(Step(s, actions[0]), actions[1..]);
    }
  }

  lemma TimedAfter(s: State, actions: seq<Action>)
    requires Start(s)
    ensures Timed(Run(s, actions).log, Run(s, actions).clock)
  {
    RunKeepsTimed(s, actions);
  }

  lemma CheckReadsTable(m: State, id: nat, client: Client)
    requires id !in m.requests && ValidIp(client.ip)
    ensures Step(m, Check(id, client)) ==
            if Blocked(Table(m.log), ThrottleKey(client), m.clock) then m
            else m.(requests := m.requests[id := Request(client, ThrottleKey(client), Passed)])
  {
  }

  lemma PassesExactly(m: State, id: nat, client: Client)
    requires Timed(m.log, m.clock) && id !in m.requests && ValidIp(client.ip)
    ensures var key := ThrottleKey(client);
            Step(m, Check(id, client)) ==
            if Count(SinceReset(m.log, key), key, m.clock - 15 * 60 * 1_000_000) < 5
            then m.(requests := m.requests[id := Request(client, key, Passed)]) else m
  {
    CheckReadsTable(m, id, client);
    PrunedTableRefinesLog(m.log, ThrottleKey(client), m.clock);
  }

  // A new request passes its check exactly when the unswept history of its key
  // since the last reset holds fewer than five attempts of the window.
  lemma CheckExactly(s: State, actions: seq<Action>, id: nat, client: Client)
    requires Start(s) && id !in Run(s, actions).requests && ValidIp(client.ip)
    ensures var m, key := Run(s, actions), ThrottleKey(client);
            Step(m, Check(id, client)) ==
            if Count(SinceReset(m.log, key), key, m.clock - 15 * 60 * 1_000_000) < 5
            then m.(requests := m.requests[id := Request(client, key, Passed)]) else m
  {
    TimedAfter(s, actions);
    PassesExactly(Run(s, actions), id, client);
  }

  // A quarter of an hour later everybody passes.
  lemma WaitingFrees(s: State, actions: seq<Action>, elapsed: nat, id: nat, client: Client)
    requires Start(s) && id !in Run(s, actions).requests && ValidIp(client.ip) && elapsed >= 15 * 60 * 1_000_000
    ensures id in Step(Step(Run(s, actions), Tick(elapsed)), Check(id, client)).requests
  {
    var m := Run(s, actions);
    var later := Step(m, Tick(elapsed));
    TimedAfter(s, actions);
    StepKeepsTimed(m, Tick(elapsed));
    CheckReadsTable(later, id, client);
    BlockedKeyFreesItself(later.log, ThrottleKey(client), m.clock, later.clock);
  }

  // ---- A right password -------------------------------------------------------------

  // Time and other requests' steps.
  predicate Spares(actions: seq<Action>, id: nat) {
    forall i :: 0 <= i < |actions| ==> actions[i].Tick? || actions[i].id != id
  }

  lemma {:induction false} SparedStays(s: State, actions: seq<Action>, id: nat)
    requires Spares(actions, id) && id in s.requests
    ensures id in Run(s, actions).requests && Run(s, actions).requests[id] == s.requests[id]
    decreases |actions|
  {
    if actions != [] {
      assert actions[0].Tick? || actions[0].id != id;
      assert forall i :: 0 <= i < |actions[1..]| ==> actions[1..][i] == actions[i + 1];
      SparedStays(Step(s, actions[0]), actions[1..], id);
    }
  }

  lemma ClearingFrees(s: State, id: nat)
    requires Timed(s.log, s.clock) && Ready(s, id, Signin, Accepted)
    ensures var key, t := s.requests[id].key, Step(s, ClearFor(id));
            && t.log == s.log + [Clear(key, s.clock)] && t.requests == s.requests - {id}
            && SinceReset(t.log, key) == [] && !Blocked(Table(t.log), key, t.clock)
  {
    var key, t := s.requests[id].key, Step(s, ClearFor(id));
    Append(s.log, Clear(key, s.clock));
    StepKeepsTimed(s, ClearFor(id));
    PrunedTableRefinesLog(t.log, key, t.clock);
  }

  lemma AcceptedWaits(m: State, id: nat, others: seq<Action>)
    requires Timed(m.log, m.clock) && KeysOwned(m) && Ready(m, id, Signin, Passed) && Spares(others, id)
    ensures var accepted := Step(m, Authenticate(id, true));
            var before := Run(accepted, others);
            && accepted.log == m.log && Timed(before.log, before.clock) && Ready(before, id, Signin, Accepted)
            && before.requests[id].key == m.requests[id].key
  {
    var accepted := Step(m, Authenticate(id, true));
    StepKeepsOwned(m, Authenticate(id, true));
    SparedStays(accepted, others, id);
    RunKeepsTimed(accepted, others);
  }

  // After any run, from a sign-in just past its check: a right password records
  // nothing, and whatever others do before the clearing, that leaves the key free
  // with no attempt remembered.
  lemma RightPasswordClears(s: State, actions: seq<Action>, id: nat, others: seq<Action>)
    requires Start(s) && Ready(Run(s, actions), id, Signin, Passed) && Spares(others, id)
    ensures var m := Run(s, actions);
            var accepted := Step(m, Authenticate(id, true));
            var before, key := Run(accepted, others), m.requests[id].key;
            var t := Step(before, ClearFor(id));
            && accepted.log == m.log && t.log == before.log + [Clear(key, before.clock)]
            && t.requests == before.requests - {id} && t.jobs == before.jobs
            && SinceReset(t.log, key) == [] && !Blocked(Table(t.log), key, t.clock)
  {
    var m := Run(s, actions);
    RunKeepsTimed(s, actions);
    AcceptedWaits(m, id, others);
    ClearingFrees(Run(Step(m, Authenticate(id, true)), others), id);
  }

  // ---- Wrong passwords ----------------------------------------------------------------

  function Recordings(log: seq<Statement>, key: string): nat {
    if log == [] then 0 else
      Recordings(log[..|log| - 1], key) + if log[|log| - 1].Record? && log[|log| - 1].key == key then 1 else 0
  }

  lemma RecordingsAppend(log: seq<Statement>, s: Statement, key: string)
    ensures Recordings(log + [s], key) == Recordings(log, key) + if s.Record? && s.key == key then 1 else 0
  {
    assert (log + [s])[..|log|] == log;
  }

  // A wrong password is tried on key.
  predicate WrongHere(s: State, a: Action, key: string) {
    a.Authenticate? && !a.ok && Ready(s, a.id, Signin, Passed) && s.requests[a.id].key == key
  }

  // Requests that tried a wrong password on key and have not recorded it.
  function Owing(s: State, key: string): set<nat> {
    set id | id in s.requests && s.requests[id].key == key && s.requests[id].client.kind.Signin?
             && (s.requests[id].phase.Rejected? || s.requests[id].phase.Swept?)
  }

  // One of them goes without recording.
  predicate WalksHere(s: State, a: Action, key: string) {
    a.Abandon? && a.id in Owing(s, key)
  }

  function WrongPasswords(s: State, actions: seq<Action>, key: string): nat
    decreases |actions|
  {
    if actions == [] then 0 else
      (if WrongHere(s, actions[0], key) then 1 else 0) + WrongPasswords(Step(s, actions[0]), actions[1..], key)
  }

  function Walks(s: State, actions: seq<Action>, key: string): nat
    decreases |actions|
  {
    if actions == [] then 0 else
      (if WalksHere(s, actions[0], key) then 1 else 0) + Walks(Step(s, actions[0]), actions[1..], key)
  }

  lemma LogMoves(s: State, a: Action, key: string)
    ensures Recordings(Step(s, a).log, key) == Recordings(s.log, key) +
              if a.RecordFor? && a.id in s.requests && s.requests[a.id].phase.Swept? && s.requests[a.id].key == key
              then 1 else 0
  {
    if Step(s, a).log != s.log {
      RecordingsAppend(s.log, Step(s, a).log[|s.log|], key);
    }
  }

  lemma OwingMoves(s: State, a: Action, key: string)
    ensures var before, after := Owing(s, key), Owing(Step(s, a), key);
            if WrongHere(s, a, key) then a.id !in before && after == before + {a.id}
            else if WalksHere(s, a, key)
                    || (a.RecordFor? && Ready(s, a.id, Signin, Swept) && s.requests[a.id].key == key)
            then a.id in before && after == before - {a.id}
            else after == before
  {
    var before, after := Owing(s, key), Owing(Step(s, a), key);
    if !a.Tick? {
      forall id | id != a.id ensures id in after <==> id in before {
      }
    }
  }

  // A key belongs to one client.
  lemma OwnerOf(s: State, id: nat, client: Client)
    requires KeysOwned(s) && ValidIp(client.ip) && id in s.requests && s.requests[id].key == ThrottleKey(client)
    ensures s.requests[id].client == client
  {
    KeysAreInjective(s.requests[id].client, client);
  }

  lemma OwingCounts(s: State, a: Action, key: string)
    ensures |Owing(Step(s, a), key)| == |Owing(s, key)| +
              if WrongHere(s, a, key) then 1
              else if WalksHere(s, a, key)
                      || (a.RecordFor? && Ready(s, a.id, Signin, Swept) && s.requests[a.id].key == key) then -1
              else 0
  {
    OwingMoves(s, a, key);
  }

  lemma StepBalances(s: State, a: Action, client: Client)
    requires client.kind == Signin && ValidIp(client.ip) && KeysOwned(s)
    ensures var key, s' := ThrottleKey(client), Step(s, a);
            Recordings(s'.log, key) + |Owing(s', key)| + (if WalksHere(s, a, key) then 1 else 0) ==
            Recordings(s.log, key) + |Owing(s, key)| + if WrongHere(s, a, key) then 1 else 0
  {
    LogMoves(s, a, ThrottleKey(client));
    OwingCounts(s, a, ThrottleKey(client));
    if a.RecordFor? && a.id in s.requests && s.requests[a.id].key == ThrottleKey(client) {
      OwnerOf(s, a.id, client);
    }
  }

  lemma {:induction false} RunBalances(s: State, actions: seq<Action>, client: Client)
    requires client.kind == Signin && ValidIp(client.ip) && KeysOwned(s)
    ensures var key, r := ThrottleKey(client), Run(s, actions);
            Recordings(r.log, key) + |Owing(r, key)| + Walks(s, actions, key) ==
            Recordings(s.log, key) + |Owing(s, key)| + WrongPasswords(s, actions, key)
    decreases |actions|
  {
    if actions != [] {
      StepBalances(s, actions[0], client);
      StepKeepsOwned(s, actions[0]);
      RunBalances(Step(s, actions[0]), actions[1..], client);
    }
  }

  // Over any run, the attempts recorded on a sign-in key are its wrong passwords,
  // but for those whose request has yet to record or has gone without.
  lemma EveryWrongPasswordCounts(s: State, actions: seq<Action>, client: Client)
    requires Start(s) && client.kind == Signin && ValidIp(client.ip)
    ensures var key, r := ThrottleKey(client), Run(s, actions);
            && Recordings(r.log, key) + |Owing(r, key)| + Walks(s, actions, key) == WrongPasswords(s, actions, key)
            && Recordings(r.log, key) <= WrongPasswords(s, actions, key)
  {
    RunBalances(s, actions, client);
    assert Owing(s, ThrottleKey(client)) == {};
  }

  // ---- Reset mails ------------------------------------------------------------------

  // Left alone, a reset request that passes records one attempt and enqueues one
  // mail on its key, and no second one.
  lemma ResetMailsOnce(s: State, id: nat)
    requires Ready(s, id, ResetMail, Passed)
    ensures var key := s.requests[id].key;
            var recorded := Step(Step(s, SweepFor(id)), RecordFor(id));
            var t := Step(recorded, Enqueue(id));
            && recorded.log == s.log + [Sweep(s.clock), Record(key, s.clock)] && recorded.jobs == s.jobs
            && t.jobs == s.jobs + [Attempt(key, s.clock)] && t.sentAt == s.sentAt + [s.clock]
            && t.log == recorded.log && t.requests == s.requests - {id} && Step(t, Enqueue(id)) == t
  {
    var key := s.requests[id].key;
    var swept := Step(s, SweepFor(id));
    assert swept == Move(s, id, Swept).(log := s.log + [Sweep(s.clock)]);
    var recorded := Step(swept, RecordFor(id));
    assert recorded.requests == s.requests[id := s.requests[id].(phase := Recorded(s.clock))];
    assert s.log + [Sweep(s.clock)] + [Record(key, s.clock)] == s.log + [Sweep(s.clock), Record(key, s.clock)];
  }

  // Whatever others do after the recording, one mail is enqueued, dated by it.
  lemma RecordedMailsOnce(s: State, id: nat, at: int, others: seq<Action>)
    requires Ready(s, id, ResetMail, Recorded(at)) && Spares(others, id)
    ensures var before, key := Run(s, others), s.requests[id].key;
            var t := Step(before, Enqueue(id));
            && t.jobs == before.jobs + [Attempt(key, at)] && t.sentAt == before.sentAt + [before.clock]
            && t.requests == before.requests - {id} && t.log == before.log && Step(t, Enqueue(id)) == t
  {
    SparedStays(s, others, id);
  }

  function Mails(jobs: seq<Attempt>, key: string): nat {
    if jobs == [] then 0 else
      Mails(jobs[..|jobs| - 1], key) + if jobs[|jobs| - 1].key == key then 1 else 0
  }

  lemma MailsAppend(jobs: seq<Attempt>, job: Attempt, key: string)
    ensures Mails(jobs + [job], key) == Mails(jobs, key) + if job.key == key then 1 else 0
  {
    assert (jobs + [job])[..|jobs|] == jobs;
  }

  // A request that recorded on key goes without a mail: its address has no user,
  // or it fails.
  predicate ForgoesHere(s: State, a: Action, key: string) {
    a.Abandon? && a.id in Stalled(s, key)
  }

  function Forgone(s: State, actions: seq<Action>, key: string): nat
    decreases |actions|
  {
    if actions == [] then 0 else
      (if ForgoesHere(s, actions[0], key) then 1 else 0) + Forgone(Step(s, actions[0]), actions[1..], key)
  }

  predicate MailsHere(s: State, a: Action, key: string) {
    a.Enqueue? && a.id in Stalled(s, key)
  }

  lemma JobsMove(s: State, a: Action, key: string)
    ensures Mails(Step(s, a).jobs, key) == Mails(s.jobs, key) + if MailsHere(s, a, key) then 1 else 0
  {
    if Step(s, a).jobs != s.jobs {
      MailsAppend(s.jobs, Step(s, a).jobs[|s.jobs|], key);
    }
  }

  lemma StalledMoves(s: State, a: Action, key: string)
    ensures var before, after := Stalled(s, key), Stalled(Step(s, a), key);
            if a.RecordFor? && Ready(s, a.id, ResetMail, Swept) && s.requests[a.id].key == key
            then a.id !in before && after == before + {a.id}
            else if MailsHere(s, a, key) || ForgoesHere(s, a, key)
            then a.id in before && after == before - {a.id}
            else after == before
  {
    var before, after := Stalled(s, key), Stalled(Step(s, a), key);
    if !a.Tick? {
      forall id | id != a.id ensures id in after <==> id in before {
      }
    }
  }

  lemma StalledCounts(s: State, a: Action, key: string)
    ensures |Stalled(Step(s, a), key)| == |Stalled(s, key)| +
              if a.RecordFor? && Ready(s, a.id, ResetMail, Swept) && s.requests[a.id].key == key then 1
              else if MailsHere(s, a, key) || ForgoesHere(s, a, key) then -1
              else 0
  {
    StalledMoves(s, a, key);
  }

  lemma StepBalancesMails(s: State, a: Action, client: Client)
    requires client.kind == ResetMail && ValidIp(client.ip) && KeysOwned(s)
    ensures var key, s' := ThrottleKey(client), Step(s, a);
            Mails(s'.jobs, key) + |Stalled(s', key)| + (if ForgoesHere(s, a, key) then 1 else 0)
              - Recordings(s'.log, key) ==
            Mails(s.jobs, key) + |Stalled(s, key)| - Recordings(s.log, key)
  {
    LogMoves(s, a, ThrottleKey(client));
    JobsMove(s, a, ThrottleKey(client));
    StalledCounts(s, a, ThrottleKey(client));
    if a.RecordFor? && a.id in s.requests && s.requests[a.id].key == ThrottleKey(client) {
      OwnerOf(s, a.id, client);
    }
  }

  lemma {:induction false} RunBalancesMails(s: State, actions: seq<Action>, client: Client)
    requires client.kind == ResetMail && ValidIp(client.ip) && KeysOwned(s)
    ensures var key, r := ThrottleKey(client), Run(s, actions);
            Mails(r.jobs, key) + |Stalled(r, key)| + Forgone(s, actions, key) - Recordings(r.log, key) ==
            Mails(s.jobs, key) + |Stalled(s, key)| - Recordings(s.log, key)
    decreases |actions|
  {
    if actions != [] {
      StepBalancesMails(s, actions[0], client);
      StepKeepsOwned(s, actions[0]);
      RunBalancesMails(Step(s, actions[0]), actions[1..], client);
    }
  }

  // Over any run, each attempt recorded on a reset key has its one mail, but for
  // those whose request has yet to enqueue it or has gone without.
  lemma EveryRecordedResetMails(s: State, actions: seq<Action>, client: Client)
    requires Start(s) && client.kind == ResetMail && ValidIp(client.ip)
    ensures var key, r := ThrottleKey(client), Run(s, actions);
            Recordings(r.log, key) == Mails(r.jobs, key) + |Stalled(r, key)| + Forgone(s, actions, key)
  {
    RunBalancesMails(s, actions, client);
    assert Stalled(s, ThrottleKey(client)) == {};
  }
}
