// One password reset as the handler runs it (auth/reset.go, db/tx.go,
// web/handlers_auth.go): a callback inside InTx, statement after statement.
module ResetConfirm {
  import opened Accounts
  import opened Wrappers

  datatype ResetError =
    | Policy(error: PolicyError)
    | TokenInvalid
    | HashUnavailable
    | NotFound
    | StatementFailed
    | CommitFailed

  datatype Outcome = Done(user: UserId) | Failed(error: ResetError)

  // The statement of the callback that fails, if one does.
  datatype Fault = Healthy | AtSelect | AtPassword | AtRetire | AtReadBack

  // What the commit reports; an error may hide a commit that took effect.
  datatype CommitReport = Acknowledged | Refused | Unknown(applied: bool)

  // The tables after a reset by a live token.
  function Reset(t: Tables, token: string, password: string, salt: nat, now: int): Tables
    requires Live(t, token, now)
  {
    var user := t.tokens[Sha256(token)].user;
    Retire(SetPassword(t, user, Argon2(password, salt)), Outstanding(t, user), now)
  }

  predicate CanReset(t: Tables, token: string, password: string, now: int) {
    ValidatePassword(password).None? && Live(t, token, now) && t.tokens[Sha256(token)].user in t.users
  }

  // What a reset promises: the new password, every open token of the user
  // retired, and nobody else touched.
  lemma ResetMeans(t: Tables, token: string, password: string, salt: nat, now: int)
    requires CanReset(t, token, password, now)
    ensures var user, t' := t.tokens[Sha256(token)].user, Reset(t, token, password, salt, now);
            && t'.users.Keys == t.users.Keys && t'.users[user].hash.password == password
            && (forall u :: u in t.users && u != user ==> t'.users[u] == t.users[u])
            && t'.tokens.Keys == t.tokens.Keys && Outstanding(t', user) == {} && !Live(t', token, now)
            && (forall d :: d in t.tokens && t.tokens[d].user != user ==> t'.tokens[d] == t.tokens[d])
            && (forall d :: d in t.tokens && t.tokens[d].usedAt.Some? ==> t'.tokens[d] == t.tokens[d])
  {
    var user := t.tokens[Sha256(token)].user;
    assert Sha256(token) in Outstanding(t, user);
  }

  // The failures that come after a write, which the rollback takes back.
  predicate HasWritten(error: ResetError, fault: Fault) {
    error == NotFound || (error == StatementFailed && (fault == AtRetire || fault == AtReadBack))
  }

  // What a transaction sees: the tables as its own statements leave them.
  class Transaction {
    var tables: Tables
    const now: int

    constructor (tables: Tables, now: int)
      ensures this.tables == tables && this.now == now
    {
      this.tables := tables;
      this.now := now;
    }

    // salt is None when the context ends while waiting for a hash slot.
    method ResetPasswordTx(token: string, password: string, salt: Option<nat>, fault: Fault) returns (outcome: Outcome)
      modifies this
      ensures outcome.Failed? && outcome.error.Policy? <==> ValidatePassword(password).Some?
      ensures outcome == Failed(TokenInvalid) <==>
                ValidatePassword(password).None? && fault != AtSelect && !Live(old(tables), token, now)
      ensures outcome == Failed(HashUnavailable) <==>
                ValidatePassword(password).None? && fault != AtSelect && Live(old(tables), token, now) && salt.None?
      ensures outcome == Failed(StatementFailed) <==>
                && ValidatePassword(password).None? && fault != Healthy
                && (fault == AtSelect || (Live(old(tables), token, now) && salt.Some?))
      ensures outcome.Done? <==> CanReset(old(tables), token, password, now) && salt.Some? && fault == Healthy
      ensures outcome.Done? ==>
                && outcome.user == old(tables).tokens[Sha256(token)].user
                && tables == Reset(old(tables), token, password, salt.value, now)
      ensures outcome == Failed(NotFound) <==>
                && ValidatePassword(password).None? && Live(old(tables), token, now) && salt.Some? && fault == Healthy
                && old(tables).tokens[Sha256(token)].user !in old(tables).users
      ensures outcome != Failed(CommitFailed)
      ensures outcome.Failed? && !HasWritten(outcome.error, fault) ==> tables == old(tables)
      ensures outcome == Failed(StatementFailed) && fault == AtRetire ==>
                tables == SetPassword(old(tables), old(tables).tokens[Sha256(token)].user, Argon2(password, salt.value))
      ensures outcome == Failed(NotFound) || (outcome == Failed(StatementFailed) && fault == AtReadBack) ==>
                tables == Reset(old(tables), token, password, salt.value, now)
    {
      var rejected := ValidatePassword(password);
      if rejected.Some? {
        return Failed(Policy(rejected.value));
      }
      if fault == AtSelect {
        return Failed(StatementFailed);
      }
      if !Live(tables, token, now) {
        return Failed(TokenInvalid);
      }
      var user := tables.tokens[Sha256(token)].user;
      if salt.None? {
        return Failed(HashUnavailable);
      }
      if fault == AtPassword {
        return Failed(StatementFailed);
      }
      tables := SetPassword(tables, user, Argon2(password, salt.value));
      if fault == AtRetire {
        return Failed(StatementFailed);
      }
      tables := Retire(tables, Outstanding(tables, user), now);
      if fault == AtReadBack {
        return Failed(StatementFailed);
      }
      if user !in tables.users {
        return Failed(NotFound);
      }
      return Done(user);
    }
  }

  class Connection {
    var committed: Tables

    constructor (tables: Tables)
      ensures committed == tables
    {
      committed := tables;
    }

    // InTx around ResetPasswordTx, as PasswordResetConfirm calls it.
    method PasswordResetConfirm(token: string, password: string, salt: Option<nat>, now: int, fault: Fault,
                                report: CommitReport)
      returns (outcome: Outcome)
      modifies this
      ensures outcome.Failed? && outcome.error != CommitFailed ==> committed == old(committed)
      ensures outcome.Done? || outcome == Failed(CommitFailed) <==>
                CanReset(old(committed), token, password, now) && salt.Some? && fault == Healthy
      ensures outcome.Done? ==>
                && report == Acknowledged && outcome.user == old(committed).tokens[Sha256(token)].user
                && committed == Reset(old(committed), token, password, salt.value, now)
      ensures outcome == Failed(CommitFailed) ==>
                && report != Acknowledged
                && committed == if report == Unknown(true)
                                then Reset(old(committed), token, password, salt.value, now) else old(committed)
    {
      var tx := new Transaction(committed, now);
      outcome := tx.ResetPasswordTx(token, password, salt, fault);
      if outcome.Failed? {
        return;
      }
      if report == Acknowledged || report == Unknown(true) {
        committed := tx.tables;
      }
      if report != Acknowledged {
        return Failed(CommitFailed);
      }
    }
  }

  // The interleaved transaction of Accounts, left alone from the reading of its
  // token to its commit.
  function Alone(tx: nat, token: string, password: string, salt: nat, now: int): seq<Action> {
    [FindToken(tx, token, password, now), Hash(tx, salt)] + [UpdateUser(tx), RetireTokens(tx), Commit(tx)]
  }

  lemma RunTwo(s: State, a: Action, b: Action)
    ensures Run(s, [a, b]) == Step(Step(s, a), b)
  {
    RunStep(s, a, [b]);
    RunStep(Step(s, a), b, []);
    assert [a] + [b] == [a, b] && [b] + [] == [b];
  }

  lemma RunOfNoTx(s: State, tx: nat)
    requires tx !in s.txs
    ensures Run(s, [UpdateUser(tx), RetireTokens(tx), Commit(tx)]) == s
  {
    RunOfThree(s, UpdateUser(tx), RetireTokens(tx), Commit(tx), []);
    assert [UpdateUser(tx), RetireTokens(tx), Commit(tx)] + [] == [UpdateUser(tx), RetireTokens(tx), Commit(tx)];
  }

  lemma RunOfOrphan(s: State, tx: nat)
    requires tx in s.txs && s.txs[tx].Hashed? && s.txs[tx].user !in s.tables.users && !Locked(s, s.txs[tx].user)
    ensures var r := Run(s, [UpdateUser(tx), RetireTokens(tx), Commit(tx)]);
            r.tables == s.tables && r.txs == s.txs - {tx}
  {
    RunOfThree(s, UpdateUser(tx), RetireTokens(tx), Commit(tx), []);
    assert [UpdateUser(tx), RetireTokens(tx), Commit(tx)] + [] == [UpdateUser(tx), RetireTokens(tx), Commit(tx)];
  }

  // It commits exactly what the handler's sequential run commits, and nothing
  // where that fails.
  lemma UninterruptedResetRefines(s: State, tx: nat, token: string, password: string, salt: nat)
    requires tx !in s.txs && salt !in s.salts
    requires Live(s.tables, token, s.clock) ==> !Locked(s, s.tables.tokens[Sha256(token)].user)
    ensures Run(s, Alone(tx, token, password, salt, s.clock)).tables ==
            if CanReset(s.tables, token, password, s.clock)
            then Reset(s.tables, token, password, salt, s.clock) else s.tables
    ensures Run(s, Alone(tx, token, password, salt, s.clock)).txs == s.txs
  {
    var find, hash := FindToken(tx, token, password, s.clock), Hash(tx, salt);
    RunJoins(s, [find, hash], [UpdateUser(tx), RetireTokens(tx), Commit(tx)]);
    RunTwo(s, find, hash);
    var h := Run(s, [find, hash]);
    if ValidatePassword(password).Some? || !Live(s.tables, token, s.clock) {
      assert h == s;
      RunOfNoTx(s, tx);
    } else {
      var user := s.tables.tokens[Sha256(token)].user;
      assert h.txs[tx] == Hashed(s.clock, user, Sha256(token), |s.log|, Argon2(password, salt)) && h.tables == s.tables;
      assert !Locked(h, user);
      if user in s.tables.users {
        var end := FinishReset(h, tx);
      } else {
        RunOfOrphan(h, tx);
      }
    }
  }
}
