// The job that mails reset links (jobs/password_reset_email.go): attempts may
// fail or be retried anywhere, and each mints its own token.
module ResetMail {
  import opened Accounts
  import A = Accounts
  import opened Wrappers

  datatype Attempt =
    | Picked(email: string)
    | Looked(email: string, user: UserId)
    | Holding(email: string, user: UserId, token: string)

  // sentAt is the length the account log had when the message left.
  datatype Mail = Mail(to: string, user: UserId, token: string, sentAt: nat)

  datatype State = State(accounts: A.State, attempts: map<nat, Attempt>, outbox: seq<Mail>, lost: set<string>)

  datatype Action =
    | Account(step: A.Action)
    | Pick(w: nat, email: string)
    | Look(w: nat, user: UserId)
    | MintToken(w: nat, token: string, expiresAt: int)
    | Send(w: nat)
    | Fail(w: nat)

  function Step(s: State, a: Action): State {
    match a
    case Account(step) => if step.Mint? then s else s.(accounts := A.Step(s.accounts, step))
    case Pick(w, email) => if w in s.attempts then s else s.(attempts := s.attempts[w := Picked(email)])
    case Look(w, user) =>
      if w in s.attempts && s.attempts[w].Picked? && user in s.accounts.tables.users
         && s.accounts.tables.users[user].email == s.attempts[w].email
      then s.(attempts := s.attempts[w := Looked(s.attempts[w].email, user)]) else s
    case MintToken(w, token, expiresAt) =>
      if w !in s.attempts || !s.attempts[w].Looked? then s else
      var accounts := A.Step(s.accounts, Mint(token, s.attempts[w].user, expiresAt));
      if accounts == s.accounts then s.(attempts := s.attempts - {w})
      else s.(accounts := accounts,
              attempts := s.attempts[w := Holding(s.attempts[w].email, s.attempts[w].user, token)])
    case Send(w) =>
      if w !in s.attempts || !s.attempts[w].Holding? then s else
      var h := s.attempts[w];
      s.(outbox := s.outbox + [Mail(h.email, h.user, h.token, |s.accounts.log|)], attempts := s.attempts - {w})
    case Fail(w) =>
      if w !in s.attempts then s else
      s.(attempts := s.attempts - {w},
         lost := if s.attempts[w].Holding? then s.lost + {s.attempts[w].token} else s.lost)
  }

  predicate Start(s: State) {
    A.Start(s.accounts) && s.attempts == map[] && s.outbox == [] && s.lost == {}
  }

  function Run(s: State, actions: seq<Action>): State
    decreases |actions|
  {
    if actions == [] then s else Run(Step(s, actions[0]), actions[1..])
  }

  predicate Held(s: State, token: string) {
    exists w :: w in s.attempts && s.attempts[w].Holding? && s.attempts[w].token == token
  }

  predicate Mailed(s: State, token: string) {
    exists i :: 0 <= i < |s.outbox| && s.outbox[i].token == token
  }

  // The row of a held or mailed token is committed, for the same user.
  ghost predicate MintedFirst(s: State) {
    && (forall w :: w in s.attempts && s.attempts[w].Holding? ==>
          MintedFor(s.accounts.log, Sha256(s.attempts[w].token), s.attempts[w].user))
    && (forall i :: 0 <= i < |s.outbox| ==>
          && s.outbox[i].sentAt <= |s.accounts.log|
          && MintedFor(s.accounts.log[..s.outbox[i].sentAt], Sha256(s.outbox[i].token), s.outbox[i].user))
  }

  // No token is in two places, nor twice in one.
  ghost predicate Apart(s: State) {
    && (forall w, w' :: w in s.attempts && w' in s.attempts && w != w' ==>
          s.attempts[w].Holding? && s.attempts[w'].Holding? ==> s.attempts[w].token != s.attempts[w'].token)
    && (forall i, j :: 0 <= i < j < |s.outbox| ==> s.outbox[i].token != s.outbox[j].token)
    && (forall w, i :: w in s.attempts && s.attempts[w].Holding? && 0 <= i < |s.outbox| ==>
          s.attempts[w].token != s.outbox[i].token)
    && (forall t :: t in s.lost ==> !Held(s, t) && !Mailed(s, t) && EverMinted(s.accounts.log, Sha256(t)))
  }

  // Every minted token is somewhere.
  ghost predicate Conserved(s: State) {
    forall i :: 0 <= i < |s.accounts.log| && s.accounts.log[i].Minted? ==>
      var t := s.accounts.log[i].digest.of; Held(s, t) || Mailed(s, t) || t in s.lost
  }

  lemma LogExtends(s: State, a: Action)
    ensures var log, log' := s.accounts.log, Step(s, a).accounts.log;
            log' == log || (|log'| == |log| + 1 && log' == log + [log'[|log|]])
  {
  }

  lemma MintExtends(s: State, a: Action)
    requires |Step(s, a).accounts.log| > |s.accounts.log|
    requires Step(s, a).accounts.log[|s.accounts.log|].Minted?
    ensures a.MintToken? && a.w in s.attempts && s.attempts[a.w].Looked? && !EverMinted(s.accounts.log, Sha256(a.token))
    ensures Step(s, a).attempts ==
            s.attempts[a.w := Holding(s.attempts[a.w].email, s.attempts[a.w].user, a.token)]
    ensures Step(s, a).accounts.log[|s.accounts.log|].digest == Sha256(a.token)
  {
  }

  lemma MintedForExtends(log: seq<Event>, e: Event, d: Digest<string>, user: UserId)
    requires MintedFor(log, d, user)
    ensures MintedFor(log + [e], d, user)
  {
    var i :| 0 <= i < |log| && log[i].Minted? && log[i].digest == d && log[i].user == user;
    assert (log + [e])[i] == log[i];
  }

  lemma StepKeepsMintedFirst(s: State, a: Action)
    requires MintedFirst(s)
    ensures MintedFirst(Step(s, a))
  {
    var s' := Step(s, a);
    var log, log' := s.accounts.log, s'.accounts.log;
    LogExtends(s, a);
    assert log[..|log|] == log;
    assert forall k :: 0 <= k <= |log| ==> log'[..k] == log[..k];
    forall w | w in s'.attempts && s'.attempts[w].Holding?
      ensures MintedFor(log', Sha256(s'.attempts[w].token), s'.attempts[w].user)
    {
      if w in s.attempts && s.attempts[w].Holding? && log' != log {
        MintedForExtends(log, log'[|log|], Sha256(s'.attempts[w].token), s'.attempts[w].user);
      } else if log' != log {
        assert log'[|log|] == Minted(Sha256(a.token), s'.attempts[w].user, a.expiresAt);
      }
    }
  }

  lemma HoldingIsMinted(s: State, t: string)
    requires MintedFirst(s) && (Held(s, t) || Mailed(s, t))
    ensures EverMinted(s.accounts.log, Sha256(t))
  {
    if Mailed(s, t) {
      var i :| 0 <= i < |s.outbox| && s.outbox[i].token == t;
      var log := s.accounts.log[..s.outbox[i].sentAt];
      var k :| 0 <= k < |log| && log[k].Minted? && log[k].digest == Sha256(t) && log[k].user == s.outbox[i].user;
      assert s.accounts.log[k] == log[k];
    }
  }

  lemma EverMintedStays(s: State, a: Action, d: Digest<string>)
    requires EverMinted(s.accounts.log, d)
    ensures EverMinted(Step(s, a).accounts.log, d)
  {
    LogExtends(s, a);
    var i :| 0 <= i < |s.accounts.log| && s.accounts.log[i].Minted? && s.accounts.log[i].digest == d;
    assert Step(s, a).accounts.log[i] == s.accounts.log[i];
  }

  // Where a held token, and a message, come from.
  lemma HolderComesFrom(s: State, a: Action, w: nat)
    requires w in Step(s, a).attempts && Step(s, a).attempts[w].Holding?
    ensures || (w in s.attempts && s.attempts[w] == Step(s, a).attempts[w] && a != Send(w))
            || (a.MintToken? && a.w == w && Step(s, a).attempts[w].token == a.token
                && !EverMinted(s.accounts.log, Sha256(a.token)) && Step(s, a).outbox == s.outbox)
  {
  }

  lemma MailComesFrom(s: State, a: Action, i: nat)
    requires i < |Step(s, a).outbox|
    ensures if i < |s.outbox| then Step(s, a).outbox[i] == s.outbox[i] else
              && i == |s.outbox| && a.Send? && a.w in s.attempts && s.attempts[a.w].Holding?
              && Step(s, a).outbox[i] ==
                 Mail(s.attempts[a.w].email, s.attempts[a.w].user, s.attempts[a.w].token, |s.accounts.log|)
              && Step(s, a).accounts == s.accounts && a.w !in Step(s, a).attempts
  {
  }

  lemma HoldersStayApart(s: State, a: Action, w: nat, w': nat)
    requires MintedFirst(s) && Apart(s) && w != w'
    requires w in Step(s, a).attempts && Step(s, a).attempts[w].Holding?
    requires w' in Step(s, a).attempts && Step(s, a).attempts[w'].Holding?
    ensures Step(s, a).attempts[w].token != Step(s, a).attempts[w'].token
  {
    HolderComesFrom(s, a, w);
    HolderComesFrom(s, a, w');
    if w in s.attempts && s.attempts[w].Holding? {
      HoldingIsMinted(s, s.attempts[w].token);
    }
    if w' in s.attempts && s.attempts[w'].Holding? {
      HoldingIsMinted(s, s.attempts[w'].token);
    }
  }

  lemma MailsStayApart(s: State, a: Action, i: nat, j: nat)
    requires Apart(s) && i < j < |Step(s, a).outbox|
    ensures Step(s, a).outbox[i].token != Step(s, a).outbox[j].token
  {
    MailComesFrom(s, a, i);
    MailComesFrom(s, a, j);
  }

  lemma HolderStaysUnmailed(s: State, a: Action, w: nat, i: nat)
    requires MintedFirst(s) && Apart(s) && i < |Step(s, a).outbox|
    requires w in Step(s, a).attempts && Step(s, a).attempts[w].Holding?
    ensures Step(s, a).attempts[w].token != Step(s, a).outbox[i].token
  {
    HolderComesFrom(s, a, w);
    MailComesFrom(s, a, i);
    if i < |s.outbox| {
      HoldingIsMinted(s, s.outbox[i].token);
    }
  }

  lemma LostStaysLost(s: State, a: Action, t: string)
    requires MintedFirst(s) && Apart(s) && t in Step(s, a).lost
    ensures !Held(Step(s, a), t) && !Mailed(Step(s, a), t) && EverMinted(Step(s, a).accounts.log, Sha256(t))
  {
    var s' := Step(s, a);
    if t !in s.lost {
      assert a.Fail? && s.attempts[a.w].token == t && Held(s, t);
      HoldingIsMinted(s, t);
    }
    EverMintedStays(s, a, Sha256(t));
    forall w | w in s'.attempts && s'.attempts[w].Holding? ensures s'.attempts[w].token != t {
      HolderComesFrom(s, a, w);
    }
    forall i | 0 <= i < |s'.outbox| ensures s'.outbox[i].token != t {
      MailComesFrom(s, a, i);
    }
  }

  lemma StepKeepsApart(s: State, a: Action)
    requires MintedFirst(s) && Apart(s)
    ensures Apart(Step(s, a))
  {
    var s' := Step(s, a);
    forall w, w' | w in s'.attempts && w' in s'.attempts && w != w'
                   && s'.attempts[w].Holding? && s'.attempts[w'].Holding?
      ensures s'.attempts[w].token != s'.attempts[w'].token
    {
      HoldersStayApart(s, a, w, w');
    }
    forall i, j | 0 <= i < j < |s'.outbox| ensures s'.outbox[i].token != s'.outbox[j].token {
      MailsStayApart(s, a, i, j);
    }
    forall w, i | w in s'.attempts && s'.attempts[w].Holding? && 0 <= i < |s'.outbox|
      ensures s'.attempts[w].token != s'.outbox[i].token
    {
      HolderStaysUnmailed(s, a, w, i);
    }
    forall t | t in s'.lost ensures !Held(s', t) && !Mailed(s', t) && EverMinted(s'.accounts.log, Sha256(t)) {
      LostStaysLost(s, a, t);
    }
  }

  lemma StepKeepsPlace(s: State, a: Action, t: string)
    requires Held(s, t) || Mailed(s, t) || t in s.lost
    ensures Held(Step(s, a), t) || Mailed(Step(s, a), t) || t in Step(s, a).lost
  {
    var s' := Step(s, a);
    if Mailed(s, t) {
      var i :| 0 <= i < |s.outbox| && s.outbox[i].token == t;
      assert s'.outbox[i] == s.outbox[i];
    } else if Held(s, t) {
      var w :| w in s.attempts && s.attempts[w].Holding? && s.attempts[w].token == t;
      if a == Send(w) {
        assert s'.outbox[|s.outbox|].token == t;
      } else if a != Fail(w) {
        assert s'.attempts[w] == s.attempts[w];
      }
    }
  }

  lemma StepKeepsConserved(s: State, a: Action)
    requires Conserved(s)
    ensures Conserved(Step(s, a))
  {
    var s' := Step(s, a);
    var log, log' := s.accounts.log, s'.accounts.log;
    LogExtends(s, a);
    forall i | 0 <= i < |log'| && log'[i].Minted?
      ensures var t := log'[i].digest.of; Held(s', t) || Mailed(s', t) || t in s'.lost
    {
      if i < |log| {
        StepKeepsPlace(s, a, log[i].digest.of);
      } else {
        MintExtends(s, a);
        assert s'.attempts[a.w].token == a.token;
      }
    }
  }

  lemma {:induction false} RunKeeps(s: State, actions: seq<Action>)
    requires MintedFirst(s) && Apart(s) && Conserved(s)
    ensures MintedFirst(Run(s, actions)) && Apart(Run(s, actions)) && Conserved(Run(s, actions))
    decreases |actions|
  {
    if actions != [] {
      StepKeepsMintedFirst(s, actions[0]);
      StepKeepsApart(s, actions[0]);
      StepKeepsConserved(s, actions[0]);
      RunKeeps(Step(s, actions[0]), actions[1..]);
    }
  }

  // Attempts and messages have the address their user was created with.
  ghost predicate Addressed(s: State) {
    && LocksHeld(s.accounts) && Emails(s.accounts)
    && (forall w :: w in s.attempts && !s.attempts[w].Picked? ==>
          EmailOf(s.accounts.log, s.attempts[w].user) == Some(s.attempts[w].email))
    && (forall i :: 0 <= i < |s.outbox| ==>
          && s.outbox[i].sentAt <= |s.accounts.log|
          && EmailOf(s.accounts.log[..s.outbox[i].sentAt], s.outbox[i].user) == Some(s.outbox[i].to))
  }

  lemma AccountsStayAddressed(s: State, a: Action)
    requires LocksHeld(s.accounts) && Emails(s.accounts)
    ensures LocksHeld(Step(s, a).accounts) && Emails(Step(s, a).accounts)
  {
    if a.Account? {
      A.StepKeepsLocks(s.accounts, a.step);
      A.StepKeepsEmails(s.accounts, a.step);
    } else if a.MintToken? && a.w in s.attempts && s.attempts[a.w].Looked? {
      A.StepKeepsLocks(s.accounts, Mint(a.token, s.attempts[a.w].user, a.expiresAt));
      A.StepKeepsEmails(s.accounts, Mint(a.token, s.attempts[a.w].user, a.expiresAt));
    }
  }

  lemma AttemptComesFrom(s: State, a: Action, w: nat)
    requires w in Step(s, a).attempts && !Step(s, a).attempts[w].Picked?
    ensures var now := Step(s, a).attempts[w];
            || (w in s.attempts && !s.attempts[w].Picked? && s.attempts[w].user == now.user
                && s.attempts[w].email == now.email)
            || (now.user in s.accounts.tables.users && s.accounts.tables.users[now.user].email == now.email
                && Step(s, a).accounts == s.accounts)
  {
  }

  lemma EmailStays(s: State, a: Action, user: UserId)
    requires EmailOf(s.accounts.log, user).Some?
    ensures EmailOf(Step(s, a).accounts.log, user) == EmailOf(s.accounts.log, user)
  {
    var log, log' := s.accounts.log, Step(s, a).accounts.log;
    LogExtends(s, a);
    if log' != log {
      EmailAppend(log, log'[|log|], user);
    }
  }

  lemma MailStaysAddressed(s: State, a: Action, i: nat)
    requires Addressed(s) && i < |Step(s, a).outbox|
    ensures var m, log := Step(s, a).outbox[i], Step(s, a).accounts.log;
            m.sentAt <= |log| && EmailOf(log[..m.sentAt], m.user) == Some(m.to)
  {
    var log, log' := s.accounts.log, Step(s, a).accounts.log;
    LogExtends(s, a);
    MailComesFrom(s, a, i);
    if i < |s.outbox| {
      assert log'[..s.outbox[i].sentAt] == log[..s.outbox[i].sentAt];
    } else {
      assert log[..|log|] == log;
    }
  }

  lemma StepKeepsAddressed(s: State, a: Action)
    requires Addressed(s)
    ensures Addressed(Step(s, a))
  {
    var s' := Step(s, a);
    AccountsStayAddressed(s, a);
    forall w | w in s'.attempts && !s'.attempts[w].Picked?
      ensures EmailOf(s'.accounts.log, s'.attempts[w].user) == Some(s'.attempts[w].email)
    {
      AttemptComesFrom(s, a, w);
      EmailStays(s, a, s'.attempts[w].user);
    }
    forall i | 0 <= i < |s'.outbox|
      ensures s'.outbox[i].sentAt <= |s'.accounts.log|
      ensures EmailOf(s'.accounts.log[..s'.outbox[i].sentAt], s'.outbox[i].user) == Some(s'.outbox[i].to)
    {
      MailStaysAddressed(s, a, i);
    }
  }

  lemma {:induction false} RunKeepsAddressed(s: State, actions: seq<Action>)
    requires Addressed(s)
    ensures Addressed(Run(s, actions))
    decreases |actions|
  {
    if actions != [] {
      StepKeepsAddressed(s, actions[0]);
      RunKeepsAddressed(Step(s, actions[0]), actions[1..]);
    }
  }

  // However sends fail and retry, a link is mailed only after its token's row
  // is committed, to the address of the row's user, and no token twice.
  lemma MailFollowsItsRow(s: State, actions: seq<Action>, i: nat)
    requires Start(s) && i < |Run(s, actions).outbox|
    ensures var r, m := Run(s, actions), Run(s, actions).outbox[i];
            && m.sentAt <= |r.accounts.log| && MintedFor(r.accounts.log[..m.sentAt], Sha256(m.token), m.user)
            && EmailOf(r.accounts.log[..m.sentAt], m.user) == Some(m.to)
            && forall j :: 0 <= j < |r.outbox| && r.outbox[j].token == m.token ==> j == i
  {
    RunKeeps(s, actions);
    RunKeepsAddressed(s, actions);
  }

  // Of the places that can hold a cleartext, a minted one is in one only: the
  // attempt that minted it, one message, or gone with a failed attempt. Users,
  // token rows and job arguments have no place for one: a row has a digest, a
  // job an address.
  lemma MintedTokensAreConserved(s: State, actions: seq<Action>, token: string)
    requires Start(s)
    ensures var r := Run(s, actions);
            && (EverMinted(r.accounts.log, Sha256(token)) <==> Held(r, token) || Mailed(r, token) || token in r.lost)
            && !(Held(r, token) && Mailed(r, token))
            && !(token in r.lost && (Held(r, token) || Mailed(r, token)))
  {
    RunKeeps(s, actions);
    var r := Run(s, actions);
    if Held(r, token) || Mailed(r, token) {
      HoldingIsMinted(r, token);
    }
  }

  // Everything but minting, which is the job's, may happen to accounts meanwhile:
  // a reset's commit between the mint and the message, say.
  lemma AccountsGoOn(s: State, step: A.Action)
    ensures Step(s, Account(step)) == if step.Mint? then s else s.(accounts := A.Step(s.accounts, step))
    ensures forall tx :: step == Commit(tx) && tx in s.accounts.txs && s.accounts.txs[tx].Retiring? ==>
              Step(s, Account(step)).accounts.log != s.accounts.log
  {
  }

  // ---- An attempt left alone ---------------------------------------------------------

  // A held token that is sent ends in one message more, at its user's address;
  // one whose sending fails ends lost.
  lemma SendDelivers(s: State, w: nat)
    requires w in s.attempts && s.attempts[w].Holding?
    ensures var h, sent, failed := s.attempts[w], Step(s, Send(w)), Step(s, Fail(w));
            && sent.outbox == s.outbox + [Mail(h.email, h.user, h.token, |s.accounts.log|)]
            && sent.attempts == s.attempts - {w} && sent.accounts == s.accounts && sent.lost == s.lost
            && failed == s.(attempts := s.attempts - {w}, lost := s.lost + {h.token})
  {
  }

  // From the picking of the job to the message, for an address that a user has,
  // the attempt mints a token of its own and mails it there, live until it expires.
  lemma AttemptMails(s: State, w: nat, user: UserId, token: string, expiresAt: int, now: int)
    requires w !in s.attempts && user in s.accounts.tables.users && now < expiresAt
    requires !EverMinted(s.accounts.log, Sha256(token))
    ensures var email := s.accounts.tables.users[user].email;
            var looked := Step(Step(s, Pick(w, email)), Look(w, user));
            var t := Step(Step(looked, MintToken(w, token, expiresAt)), Send(w));
            && t.accounts.log == s.accounts.log + [Minted(Sha256(token), user, expiresAt)]
            && t.outbox == s.outbox + [Mail(email, user, token, |s.accounts.log| + 1)]
            && t.attempts == s.attempts && t.lost == s.lost
            && Live(t.accounts.tables, token, now) && t.accounts.tables.tokens[Sha256(token)].user == user
  {
    var email := s.accounts.tables.users[user].email;
    var looked := Step(Step(s, Pick(w, email)), Look(w, user));
    assert looked == s.(attempts := s.attempts[w := Looked(email, user)]);
    var held := Step(looked, MintToken(w, token, expiresAt));
    assert held.attempts == s.attempts[w := Holding(email, user, token)];
    SendDelivers(held, w);
    assert s.attempts[w := Holding(email, user, token)] - {w} == s.attempts;
  }

  // A user that vanishes before the mint ends the attempt, with nothing minted.
  lemma VanishedUserEndsAttempt(s: State, w: nat, token: string, expiresAt: int)
    requires w in s.attempts && s.attempts[w].Looked? && s.attempts[w].user !in s.accounts.tables.users
    ensures Step(s, MintToken(w, token, expiresAt)) == s.(attempts := s.attempts - {w})
  {
  }

  // Without such a user nothing is minted and nothing is sent.
  lemma NobodyToMail(s: State, w: nat, email: string, user: UserId, token: string, expiresAt: int)
    requires w !in s.attempts && EmailFree(s.accounts.tables, email)
    ensures var picked := Step(s, Pick(w, email));
            Step(Step(Step(picked, Look(w, user)), MintToken(w, token, expiresAt)), Send(w)) == picked
  {
  }
}
