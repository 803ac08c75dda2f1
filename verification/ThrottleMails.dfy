// Reset mails by the time they are enqueued (web/handlers_auth.go:100-115): a
// request may stall between recording its attempt and enqueueing its mail.
module ThrottleMails {
  import opened Sets
  import opened Throttle
  import opened ThrottleRequests

  predicate InWindow(t: int, lo: int) {
    lo < t <= lo + WINDOW
  }

  // Mails on key enqueued in the window (lo, lo + WINDOW].
  function Enqueued(jobs: seq<Attempt>, sentAt: seq<int>, key: string, lo: int): nat
    requires |jobs| == |sentAt|
  {
    if jobs == [] then 0 else
      var n := |jobs| - 1;
      Enqueued(jobs[..n], sentAt[..n], key, lo) + if jobs[n].key == key && InWindow(sentAt[n], lo) then 1 else 0
  }

  // Those of them whose attempt was recorded before the window.
  function Late(jobs: seq<Attempt>, sentAt: seq<int>, key: string, lo: int): nat
    requires |jobs| == |sentAt|
  {
    if jobs == [] then 0 else
      var n := |jobs| - 1;
      Late(jobs[..n], sentAt[..n], key, lo)
      + if jobs[n].key == key && InWindow(sentAt[n], lo) && jobs[n].at <= lo then 1 else 0
  }

  // A mail is enqueued after its attempt, and neither lies in the future.
  ghost predicate Dated(s: State) {
    && |s.jobs| == |s.sentAt|
    && (forall i :: 0 <= i < |s.jobs| ==> s.jobs[i].at <= s.sentAt[i] <= s.clock)
    && (forall id :: id in s.requests && s.requests[id].phase.Recorded? ==> s.requests[id].phase.at <= s.clock)
  }

  lemma {:induction false} EnqueuedSplits(jobs: seq<Attempt>, sentAt: seq<int>, key: string, lo: int)
    requires |jobs| == |sentAt| && forall i :: 0 <= i < |jobs| ==> jobs[i].at <= sentAt[i]
    ensures Enqueued(jobs, sentAt, key, lo) <= Within(jobs, key, lo) + Late(jobs, sentAt, key, lo)
  {
    if jobs != [] {
      var n := |jobs| - 1;
      EnqueuedSplits(jobs[..n], sentAt[..n], key, lo);
    }
  }

  lemma {:induction false} NoneLate(jobs: seq<Attempt>, sentAt: seq<int>, key: string, lo: int)
    requires |jobs| == |sentAt| && forall i :: 0 <= i < |jobs| ==> sentAt[i] <= lo
    ensures Late(jobs, sentAt, key, lo) == 0
  {
    if jobs != [] {
      var n := |jobs| - 1;
      NoneLate(jobs[..n], sentAt[..n], key, lo);
    }
  }

  lemma LateAppend(jobs: seq<Attempt>, sentAt: seq<int>, job: Attempt, t: int, key: string, lo: int)
    requires |jobs| == |sentAt|
    ensures Late(jobs + [job], sentAt + [t], key, lo) ==
            Late(jobs, sentAt, key, lo) + if job.key == key && InWindow(t, lo) && job.at <= lo then 1 else 0
  {
    assert (jobs + [job])[..|jobs|] == jobs && (sentAt + [t])[..|jobs|] == sentAt;
  }

  // The requests on key between recording and enqueueing.
  function Stalled(s: State, key: string): set<nat> {
    set id | id in s.requests && s.requests[id].key == key && s.requests[id].phase.Recorded?
  }

  function StalledSince(s: State, key: string, lo: int): set<nat> {
    set id | id in Stalled(s, key) && s.requests[id].phase.at <= lo
  }

  lemma StepKeepsDated(s: State, a: Action)
    requires Dated(s)
    ensures Dated(Step(s, a)) && s.clock <= Step(s, a).clock
  {
  }

  lemma {:induction false} RunKeepsDated(s: State, actions: seq<Action>)
    requires Dated(s)
    ensures Dated(Run(s, actions)) && s.clock <= Run(s, actions).clock
    decreases |actions|
  {
    if actions != [] {
      StepKeepsDated(s, actions[0]);
      RunKeepsDated(Step(s, actions[0]), actions[1..]);
    }
  }

  // Once the window is open, a mail comes late only from a request that stalled
  // before it, and no request joins those.
  lemma LateMoves(s: State, a: Action, key: string, lo: int)
    requires Dated(s) && lo < s.clock
    ensures var s' := Step(s, a);
            if s'.jobs == s.jobs then s'.sentAt == s.sentAt && StalledSince(s', key, lo) <= StalledSince(s, key, lo)
            else
              && a.Enqueue? && a.id in s.requests && s.requests[a.id].phase.Recorded?
              && s'.jobs == s.jobs + [Attempt(s.requests[a.id].key, s.requests[a.id].phase.at)]
              && s'.sentAt == s.sentAt + [s.clock]
              && StalledSince(s', key, lo) == StalledSince(s, key, lo) - {a.id}
  {
  }

  lemma LateBalance(s: State, a: Action, key: string, lo: int)
    requires Dated(s) && lo < s.clock && Dated(Step(s, a))
    ensures var s' := Step(s, a);
            Late(s'.jobs, s'.sentAt, key, lo) + |StalledSince(s', key, lo)| <=
              Late(s.jobs, s.sentAt, key, lo) + |StalledSince(s, key, lo)|
  {
    var s' := Step(s, a);
    LateMoves(s, a, key, lo);
    if s'.jobs == s.jobs {
      SubsetIsSmaller(StalledSince(s', key, lo), StalledSince(s, key, lo));
    } else {
      LateAppend(s.jobs, s.sentAt, Attempt(s.requests[a.id].key, s.requests[a.id].phase.at), s.clock, key, lo);
      if s.requests[a.id].key == key && s.requests[a.id].phase.at <= lo {
        assert a.id in StalledSince(s, key, lo);
      }
    }
  }

  lemma {:induction false} RunKeepsLate(s: State, actions: seq<Action>, key: string, lo: int)
    requires Dated(s) && lo < s.clock
    ensures Dated(Run(s, actions))
    ensures Late(Run(s, actions).jobs, Run(s, actions).sentAt, key, lo) <=
            Late(s.jobs, s.sentAt, key, lo) + |StalledSince(s, key, lo)|
    decreases |actions|
  {
    if actions != [] {
      StepKeepsDated(s, actions[0]);
      LateBalance(s, actions[0], key, lo);
      RunKeepsLate(Step(s, actions[0]), actions[1..], key, lo);
    }
  }

  lemma {:induction false} RunJoin(s: State, a: seq<Action>, b: seq<Action>)
    ensures Run(s, a + b) == Run(Run(s, a), b)
    decreases |a|
  {
    if a == [] {
      assert a + b == b;
    } else {
      RunJoin(Step(s, a[0]), a[1..], b);
      assert (a + b)[0] == a[0] && (a + b)[1..] == a[1..] + b;
    }
  }

  // No window's mails, by the time they are enqueued, exceed 4 + c and the
  // requests that stood recorded and not yet enqueued when the window opened.
  lemma MailsPerRealWindow(s: State, before: seq<Action>, during: seq<Action>, mail: Client, c: nat, lo: int)
    requires mail.kind == ResetMail && ValidIp(mail.ip)
    requires Start(s) && AtMostInFlight(s, before + during, ThrottleKey(mail), c)
    requires Run(s, before).clock <= lo && (during != [] ==> lo < Step(Run(s, before), during[0]).clock)
    ensures var r := Run(s, before + during);
            && |r.jobs| == |r.sentAt|
            && Enqueued(r.jobs, r.sentAt, ThrottleKey(mail), lo) <=
                 LIMIT - 1 + c + |Stalled(Run(s, before), ThrottleKey(mail))|
  {
    var key, mid, r := ThrottleKey(mail), Run(s, before), Run(s, before + during);
    RunJoin(s, before, during);
    RunKeepsDated(s, before);
    RunKeepsDated(mid, during);
    NoneLate(mid.jobs, mid.sentAt, key, lo);
    MailsPerWindow(s, before + during, mail, c, lo);
    EnqueuedSplits(r.jobs, r.sentAt, key, lo);
    SubsetIsSmaller(StalledSince(mid, key, lo), Stalled(mid, key));
    if during != [] {
      var next := Step(mid, during[0]);
      assert next == mid.(clock := next.clock);
      StepKeepsDated(mid, during[0]);
      SubsetIsSmaller(StalledSince(next, key, lo), Stalled(mid, key));
      RunKeepsLate(next, during[1..], key, lo);
    }
  }
}
