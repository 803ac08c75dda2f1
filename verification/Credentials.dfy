// What the password policy admits, and what every stored credential keeps
// (auth/users.go).
module Credentials {
  import opened Accounts
  import opened Wrappers

  // The characters of a text from the n-th code point on.
  function From(s: string, n: nat): nat {
    if s == "" then 0 else (if s[0] as int >= n then 1 else 0) + From(s[1..], n)
  }

  // A character takes one byte, and one more from each of the three code points
  // at which UTF-8 lengthens (section 3 of RFC 3629).
  lemma {:induction false} BytesOf(s: string)
    ensures Utf8Length(s) == |s| + From(s, 0x80) + From(s, 0x800) + From(s, 0x1_0000)
  {
    if s != "" {
      BytesOf(s[1..]);
    }
  }

  // At least eight characters, and at most 512 bytes.
  predicate Admitted(password: string) {
    |password| >= 8 && |password| + From(password, 0x80) + From(password, 0x800) + From(password, 0x1_0000) <= 512
  }

  // Which passwords are refused, and with which error.
  lemma PolicyExactly(password: string)
    ensures ValidatePassword(password).None? <==> Admitted(password)
    ensures ValidatePassword(password) == Some(Required) <==> |password| == 0
    ensures ValidatePassword(password) == Some(TooShort) <==> 0 < |password| < 8
    ensures ValidatePassword(password) == Some(TooLong) <==> |password| >= 8 && !Admitted(password)
  {
    BytesOf(password);
  }

  // The password a running reset will set.
  function NewPassword(tx: Tx): string {
    if tx.Found? then tx.password else tx.hash.password
  }

  ghost predicate OnlyAdmitted(s: State) {
    && (forall u :: u in s.tables.users ==> Admitted(s.tables.users[u].hash.password))
    && (forall t :: t in s.txs ==> Admitted(NewPassword(s.txs[t])))
  }

  ghost predicate EmailsDiffer(s: State) {
    forall u, v :: u in s.tables.users && v in s.tables.users && s.tables.users[u].email == s.tables.users[v].email ==>
      u == v
  }

  // A hash comes from the row, a committing reset, or the creation of its user;
  // the password of a reset from its request.
  lemma HashComesFrom(s: State, a: Action, u: UserId)
    requires u in Step(s, a).tables.users
    ensures var password := Step(s, a).tables.users[u].hash.password;
            || (u in s.tables.users && s.tables.users[u].hash.password == password)
            || (exists t :: t in s.txs && NewPassword(s.txs[t]) == password)
            || (a.Create? && a.password == password && ValidatePassword(password).None?)
  {
    if a.Commit? && a.tx in s.txs && s.txs[a.tx].Retiring? {
      assert NewPassword(s.txs[a.tx]) == s.txs[a.tx].hash.password;
    }
  }

  lemma ResetComesFrom(s: State, a: Action, t: nat)
    requires t in Step(s, a).txs
    ensures var password := NewPassword(Step(s, a).txs[t]);
            || (t in s.txs && NewPassword(s.txs[t]) == password)
            || (a.FindToken? && a.password == password && ValidatePassword(password).None?)
  {
  }

  lemma StepKeepsAdmitted(s: State, a: Action)
    requires OnlyAdmitted(s)
    ensures OnlyAdmitted(Step(s, a))
  {
    var s' := Step(s, a);
    forall u | u in s'.tables.users ensures Admitted(s'.tables.users[u].hash.password) {
      HashComesFrom(s, a, u);
      PolicyExactly(s'.tables.users[u].hash.password);
    }
    forall t | t in s'.txs ensures Admitted(NewPassword(s'.txs[t])) {
      ResetComesFrom(s, a, t);
      PolicyExactly(NewPassword(s'.txs[t]));
    }
  }

  lemma AddressComesFrom(s: State, a: Action, u: UserId)
    requires u in Step(s, a).tables.users
    ensures var email := Step(s, a).tables.users[u].email;
            if a.Create? && a.user == u && Step(s, a) != s then email == a.email && EmailFree(s.tables, email)
            else (u in s.tables.users && s.tables.users[u].email == email)
  {
  }

  lemma StepKeepsEmailsDiffer(s: State, a: Action)
    requires EmailsDiffer(s)
    ensures EmailsDiffer(Step(s, a))
  {
    var s' := Step(s, a);
    forall u, v | u in s'.tables.users && v in s'.tables.users && s'.tables.users[u].email == s'.tables.users[v].email
      ensures u == v
    {
      AddressComesFrom(s, a, u);
      AddressComesFrom(s, a, v);
    }
  }

  // No reset has started, and no token was used, in the future.
  ghost predicate NothingAhead(s: State) {
    && (forall t :: t in s.txs ==> s.txs[t].start <= s.clock)
    && (forall d :: d in s.tables.tokens && s.tables.tokens[d].usedAt.Some? ==>
          s.tables.tokens[d].usedAt.value <= s.clock)
  }

  lemma UseComesFrom(s: State, a: Action, d: Digest<string>)
    requires d in Step(s, a).tables.tokens && Step(s, a).tables.tokens[d].usedAt.Some?
    ensures var used := Step(s, a).tables.tokens[d].usedAt.value;
            || (d in s.tables.tokens && s.tables.tokens[d].usedAt == Some(used))
            || (a.Commit? && a.tx in s.txs && used == s.txs[a.tx].start)
  {
  }

  lemma StepKeepsNothingAhead(s: State, a: Action)
    requires NothingAhead(s)
    ensures NothingAhead(Step(s, a))
  {
    var s' := Step(s, a);
    assert s'.clock >= s.clock;
    forall t | t in s'.txs ensures s'.txs[t].start <= s'.clock {
      TxComesFrom(s, a, t);
    }
    forall d | d in s'.tables.tokens && s'.tables.tokens[d].usedAt.Some?
      ensures s'.tables.tokens[d].usedAt.value <= s'.clock
    {
      UseComesFrom(s, a, d);
    }
  }

  lemma {:induction false} RunKeepsCredentials(s: State, actions: seq<Action>)
    requires OnlyAdmitted(s) && EmailsDiffer(s) && NothingAhead(s)
    ensures OnlyAdmitted(Run(s, actions)) && EmailsDiffer(Run(s, actions)) && NothingAhead(Run(s, actions))
    decreases |actions|
  {
    if actions != [] {
      StepKeepsAdmitted(s, actions[0]);
      StepKeepsEmailsDiffer(s, actions[0]);
      StepKeepsNothingAhead(s, actions[0]);
      RunKeepsCredentials(Step(s, actions[0]), actions[1..]);
    }
  }

  // After any run, no stored hash is of a password the policy refuses, no address
  // belongs to two users, and no token was used in the future.
  lemma StoredCredentials(s: State, actions: seq<Action>)
    requires Start(s)
    ensures OnlyAdmitted(Run(s, actions)) && EmailsDiffer(Run(s, actions)) && NothingAhead(Run(s, actions))
  {
    RunKeepsCredentials(s, actions);
  }

  // A deletion takes the user and exactly its tokens, unless a running reset has
  // the user's row.
  lemma DeletionExactly(s: State, user: UserId)
    requires user in s.tables.users
    ensures var s' := Step(s, Remove(user));
            if Locked(s, user) then s' == s else
              && s'.tables.users == s.tables.users - {user} && s'.log == s.log + [Deleted(user)]
              && (forall d :: d in s'.tables.tokens <==> d in s.tables.tokens && s.tables.tokens[d].user != user)
              && (forall d :: d in s'.tables.tokens ==> s'.tables.tokens[d] == s.tables.tokens[d])
  {
  }

  // A rollback forgets the transaction and what it held, and nothing else.
  lemma RollbackForgets(s: State, tx: nat, user: UserId)
    ensures Step(s, Rollback(tx)) == s.(txs := s.txs - {tx})
    ensures Locked(Step(s, Rollback(tx)), user) <==> exists t :: t in s.txs && t != tx && HoldsLock(s.txs[t], user)
  {
    var s' := Step(s, Rollback(tx));
    if Locked(s', user) {
      var t :| t in s'.txs && HoldsLock(s'.txs[t], user);
      assert t in s.txs && t != tx && HoldsLock(s.txs[t], user);
    }
    if t :| t in s.txs && t != tx && HoldsLock(s.txs[t], user) {
      assert t in s'.txs && HoldsLock(s'.txs[t], user);
    }
  }

  // A creation takes place exactly where the policy admits the password, the
  // address is free, and identifier and salt are new; then the row has them.
  lemma CreationExactly(s: State, user: UserId, email: string, password: string, salt: nat)
    requires !Known(s.log, user) && salt !in s.salts
    ensures var s' := Step(s, Create(user, email, password, salt));
            if Admitted(password) && EmailFree(s.tables, email) then
              && s'.tables == s.tables.(users := s.tables.users[user := User(email, Argon2(password, salt))])
              && s'.log == s.log + [Created(user, email, Argon2(password, salt))]
            else s' == s
  {
    PolicyExactly(password);
  }
}
