// Users and reset tokens (auth/users.go, auth/reset.go) as PostgreSQL holds
// them at Read Committed. Every step is one statement; a reset is a transaction
// of several, and any other step may run between two of them.
module Accounts {
  import opened Wrappers

  type UserId = nat

  // Hashing salts afresh, so a hash names one run of the hasher.
  datatype PasswordHash = Argon2(password: string, salt: nat)

  // SHA-256, taken to be injective.
  datatype Digest<T> = Sha256(of: T)

  datatype User = User(email: string, hash: PasswordHash)

  datatype Token = Token(user: UserId, expiresAt: int, usedAt: Option<int>)

  datatype Tables = Tables(users: map<UserId, User>, tokens: map<Digest<string>, Token>)

  datatype PolicyError = Required | TooShort | TooLong

  const PASSWORD_MIN_LENGTH := 8
  const PASSWORD_MAX_BYTES := 512

  function Utf8Length(s: string): nat {
    if s == [] then 0 else
      var c := s[0] as int;
      (if c < 0x80 then 1 else if c < 0x800 then 2 else if c < 0x1_0000 then 3 else 4) + Utf8Length(s[1..])
  }

  function ValidatePassword(password: string): Option<PolicyError> {
    if password == "" then Some(Required)
    else if |password| < PASSWORD_MIN_LENGTH then Some(TooShort)
    else if Utf8Length(password) > PASSWORD_MAX_BYTES then Some(TooLong)
    else None
  }

  predicate Verify(password: string, hash: PasswordHash) {
    hash.password == password
  }

  // SELECT ... WHERE token_hash = $1 AND used_at IS NULL AND expires_at > now()
  predicate Live(t: Tables, token: string, now: int) {
    var d := Sha256(token);
    d in t.tokens && t.tokens[d].usedAt.None? && t.tokens[d].expiresAt > now
  }

  // The rows UPDATE ... WHERE user_id = ? AND used_at IS NULL touches.
  function Outstanding(t: Tables, user: UserId): set<Digest<string>> {
    set d | d in t.tokens && t.tokens[d].user == user && t.tokens[d].usedAt.None?
  }

  function SetPassword(t: Tables, user: UserId, hash: PasswordHash): Tables {
    if user in t.users then t.(users := t.users[user := t.users[user].(hash := hash)]) else t
  }

  function Retire(t: Tables, retired: set<Digest<string>>, now: int): Tables {
    t.(tokens := map d | d in t.tokens ::
                   if d in retired then t.tokens[d].(usedAt := Some(now)) else t.tokens[d])
  }

  // ON DELETE CASCADE
  function Delete(t: Tables, user: UserId): Tables {
    Tables(t.users - {user}, map d | d in t.tokens && t.tokens[d].user != user :: t.tokens[d])
  }

  // A reset in progress. From Updated on it holds the user's row lock; what it
  // wrote is visible to others only after its commit. start is now() for every
  // statement of the transaction; foundAt and ranAt are the lengths the log had
  // when it read the token live and when it ran its retiring UPDATE.
  datatype Tx =
    | Found(start: int, user: UserId, digest: Digest<string>, foundAt: nat, password: string)
    | Hashed(start: int, user: UserId, digest: Digest<string>, foundAt: nat, hash: PasswordHash)
    | Updated(start: int, user: UserId, digest: Digest<string>, foundAt: nat, hash: PasswordHash)
    | Retiring(start: int, user: UserId, digest: Digest<string>, foundAt: nat, hash: PasswordHash,
               retired: set<Digest<string>>, ranAt: nat)

  // What committed, in commit order.
  datatype Event =
    | Created(user: UserId, email: string, hash: PasswordHash)
    | ResetCommitted(start: int, user: UserId, hash: PasswordHash, digest: Digest<string>, foundAt: nat, ranAt: nat)
    | Deleted(user: UserId)
    | Minted(digest: Digest<string>, user: UserId, expiresAt: int)

  datatype State = State(clock: int, tables: Tables, salts: set<nat>, txs: map<nat, Tx>, log: seq<Event>)

  datatype Action =
    | Tick(elapsed: nat)
    | Create(user: UserId, email: string, password: string, salt: nat)
    | Remove(user: UserId)
    | Mint(token: string, user: UserId, expiresAt: int)
    | FindToken(tx: nat, token: string, password: string, start: int)
    | Hash(tx: nat, salt: nat)
    | UpdateUser(tx: nat)
    | RetireTokens(tx: nat)
    | Commit(tx: nat)
    | Rollback(tx: nat)

  predicate HoldsLock(tx: Tx, user: UserId) {
    (tx.Updated? || tx.Retiring?) && tx.user == user
  }

  predicate Locked(s: State, user: UserId) {
    exists i :: i in s.txs && HoldsLock(s.txs[i], user)
  }

  predicate Known(log: seq<Event>, user: UserId) {
    exists i :: 0 <= i < |log| && log[i].user == user
  }

  predicate EverMinted(log: seq<Event>, d: Digest<string>) {
    exists i :: 0 <= i < |log| && log[i].Minted? && log[i].digest == d
  }

  predicate EmailFree(t: Tables, email: string) {
    forall u :: u in t.users ==> t.users[u].email != email
  }

  function CommitTables(t: Tables, tx: Tx): Tables
    requires tx.Retiring?
  {
    Retire(SetPassword(t, tx.user, tx.hash), tx.retired, tx.start)
  }

  // An action whose guard fails changes nothing: a blocked UPDATE waits, a
  // unique or foreign key violation is an error, an identity never repeats.
  function Step(s: State, a: Action): State {
    match a
    case Tick(elapsed) => s.(clock := s.clock + elapsed)
    case Create(u, email, password, salt) =>
      if ValidatePassword(password).Some? || Known(s.log, u) || !EmailFree(s.tables, email) || salt in s.salts then s
      else
      var hash := Argon2(password, salt);
      s.(tables := s.tables.(users := s.tables.users[u := User(email, hash)]),
      salts := s.salts + {salt}, log := s.log + [Created(u, email, hash)])
    case Remove(u) =>
      if u !in s.tables.users || Locked(s, u) then s else
      s.(tables := Delete(s.tables, u), log := s.log + [Deleted(u)])
    case Mint(token, u, expiresAt) =>
      var d := Sha256(token);
      if u !in s.tables.users || EverMinted(s.log, d) then s else
      s.(tables := s.tables.(tokens := s.tables.tokens[d := Token(u, expiresAt, None)]),
      log := s.log + [Minted(d, u, expiresAt)])
    case FindToken(i, token, password, start) =>
      if i in s.txs || start > s.clock || ValidatePassword(password).Some? || !Live(s.tables, token, start) then s else
      s.(txs := s.txs[i := Found(start, s.tables.tokens[Sha256(token)].user, Sha256(token), |s.log|, password)])
    case Hash(i, salt) =>
      if i !in s.txs || !s.txs[i].Found? || salt in s.salts then s else
      var tx := s.txs[i];
      s.(txs := s.txs[i := Hashed(tx.start, tx.user, tx.digest, tx.foundAt, Argon2(tx.password, salt))],
      salts := s.salts + {salt})
    case UpdateUser(i) =>
      if i !in s.txs || !s.txs[i].Hashed? || Locked(s, s.txs[i].user) then s
      else if s.txs[i].user !in s.tables.users then s.(txs := s.txs - {i})
      else
        var tx := s.txs[i];
        s.(txs := s.txs[i := Updated(tx.start, tx.user, tx.digest, tx.foundAt, tx.hash)])
    case RetireTokens(i) =>
      if i !in s.txs || !s.txs[i].Updated? then s else
      var tx := s.txs[i];
      s.(txs := s.txs[i := Retiring(tx.start, tx.user, tx.digest, tx.foundAt, tx.hash,
                                    Outstanding(s.tables, tx.user), |s.log|)])
    case Commit(i) =>
      if i !in s.txs || !s.txs[i].Retiring? then s else
      var tx := s.txs[i];
      s.(tables := CommitTables(s.tables, tx), txs := s.txs - {i},
      log := s.log + [ResetCommitted(tx.start, tx.user, tx.hash, tx.digest, tx.foundAt, tx.ranAt)])
    case Rollback(i) => s.(txs := s.txs - {i})
  }

  predicate Start(s: State) {
    s.tables == Tables(map[], map[]) && s.txs == map[] && s.log == [] && s.salts == {}
  }

  function Run(s: State, actions: seq<Action>): State
    decreases |actions|
  {
    if actions == [] then s else Run(Step(s, actions[0]), actions[1..])
  }

  // The password generation the history gives a user.
  function Current(log: seq<Event>, user: UserId): Option<PasswordHash> {
    if log == [] then None else
      var e := log[|log| - 1];
      if e.user != user || e.Minted? then Current(log[..|log| - 1], user)
      else if e.Deleted? then None else Some(e.hash)
  }

  predicate SetsPassword(e: Event) {
    e.Created? || e.ResetCommitted?
  }

  // ---- Password generations -------------------------------------------------

  ghost predicate Generations(s: State) {
    && (forall u :: u in s.tables.users <==> Current(s.log, u).Some?)
    && (forall u :: u in s.tables.users ==> Current(s.log, u) == Some(s.tables.users[u].hash))
    && (forall u :: u in s.tables.users ==> Known(s.log, u))
  }

  ghost predicate LogSaltsFresh(s: State) {
    && (forall i :: 0 <= i < |s.log| && SetsPassword(s.log[i]) ==> s.log[i].hash.salt in s.salts)
    && (forall i, j :: 0 <= i < j < |s.log| && SetsPassword(s.log[i]) && SetsPassword(s.log[j]) ==>
          s.log[i].hash.salt != s.log[j].hash.salt)
  }

  ghost predicate TxSaltsFresh(s: State) {
    && (forall t :: t in s.txs && !s.txs[t].Found? ==> s.txs[t].hash.salt in s.salts)
    && (forall t, i :: t in s.txs && !s.txs[t].Found? && 0 <= i < |s.log| && SetsPassword(s.log[i]) ==>
          s.txs[t].hash.salt != s.log[i].hash.salt)
    && (forall t, t' :: t in s.txs && t' in s.txs && t != t' && !s.txs[t].Found? && !s.txs[t'].Found? ==>
          s.txs[t].hash.salt != s.txs[t'].hash.salt)
  }

  ghost predicate LocksHeld(s: State) {
    && (forall t :: t in s.txs && (s.txs[t].Updated? || s.txs[t].Retiring?) ==> s.txs[t].user in s.tables.users)
    && (forall t, t' :: t in s.txs && t' in s.txs && t != t' && HoldsLock(s.txs[t], s.txs[t'].user) ==>
          !HoldsLock(s.txs[t'], s.txs[t'].user))
  }

  lemma CurrentAppend(log: seq<Event>, e: Event, user: UserId)
    ensures Current(log + [e], user) ==
            if e.user != user || e.Minted? then Current(log, user)
            else if e.Deleted? then None else Some(e.hash)
  {
    assert (log + [e])[..|log|] == log;
  }

  lemma {:induction false} CurrentIsKnown(log: seq<Event>, user: UserId)
    requires Current(log, user).Some?
    ensures Known(log, user)
  {
    var e := log[|log| - 1];
    if e.user != user || e.Minted? {
      CurrentIsKnown(log[..|log| - 1], user);
    }
  }

  lemma StepKeepsLocks(s: State, a: Action)
    requires LocksHeld(s)
    ensures LocksHeld(Step(s, a))
  {
  }

  lemma StepKeepsGenerations(s: State, a: Action)
    requires Generations(s) && LocksHeld(s)
    ensures Generations(Step(s, a))
  {
    var s' := Step(s, a);
    if s'.log != s.log {
      var e := s'.log[|s.log|];
      assert s'.log == s.log + [e];
      forall u
        ensures Current(s'.log, u) ==
                if e.user != u || e.Minted? then Current(s.log, u) else if e.Deleted? then None else Some(e.hash)
      {
        CurrentAppend(s.log, e, u);
      }
      forall u | u in s'.tables.users ensures Known(s'.log, u) {
        CurrentIsKnown(s'.log, u);
      }
    }
  }

  // A step adds at most one event.
  lemma LogStep(s: State, a: Action)
    ensures var log' := Step(s, a).log;
            log' == s.log || (|log'| == |s.log| + 1 && log' == s.log + [log'[|s.log|]])
  {
  }

  // The address a user was created with, which nothing changes.
  function EmailOf(log: seq<Event>, user: UserId): Option<string> {
    if log == [] then None else
      var n := |log| - 1;
      var before := EmailOf(log[..n], user);
      if before.Some? then before
      else if log[n].Created? && log[n].user == user then Some(log[n].email) else None
  }

  ghost predicate Emails(s: State) {
    forall u :: u in s.tables.users ==> EmailOf(s.log, u) == Some(s.tables.users[u].email)
  }

  lemma EmailAppend(log: seq<Event>, e: Event, user: UserId)
    ensures EmailOf(log + [e], user) ==
            if EmailOf(log, user).Some? then EmailOf(log, user)
            else if e.Created? && e.user == user then Some(e.email) else None
  {
    assert (log + [e])[..|log|] == log;
  }

  lemma {:induction false} EmailIsKnown(log: seq<Event>, user: UserId)
    requires EmailOf(log, user).Some?
    ensures Known(log, user)
  {
    if EmailOf(log[..|log| - 1], user).Some? {
      EmailIsKnown(log[..|log| - 1], user);
    }
  }

  // A user was there with that address, or has just been created with it.
  lemma UserComesFrom(s: State, a: Action, u: UserId)
    requires LocksHeld(s) && u in Step(s, a).tables.users
    ensures var email := Step(s, a).tables.users[u].email;
            || (u in s.tables.users && s.tables.users[u].email == email)
            || (a.Create? && a.user == u && !Known(s.log, u) && |Step(s, a).log| == |s.log| + 1 &&
                Step(s, a).log == s.log + [Step(s, a).log[|s.log|]] &&
                Step(s, a).log[|s.log|] == Created(u, email, Step(s, a).log[|s.log|].hash))
  {
  }

  lemma StepKeepsEmails(s: State, a: Action)
    requires Emails(s) && LocksHeld(s)
    ensures Emails(Step(s, a))
  {
    forall u | u in Step(s, a).tables.users
      ensures EmailOf(Step(s, a).log, u) == Some(Step(s, a).tables.users[u].email)
    {
      UserComesFrom(s, a, u);
      LogStep(s, a);
      if Step(s, a).log != s.log {
        EmailAppend(s.log, Step(s, a).log[|s.log|], u);
      }
      if EmailOf(s.log, u).Some? {
        EmailIsKnown(s.log, u);
      }
    }
  }

  lemma StepKeepsLogSaltsFresh(s: State, a: Action)
    requires LogSaltsFresh(s) && TxSaltsFresh(s)
    ensures LogSaltsFresh(Step(s, a))
  {
  }

  lemma StepKeepsTxSaltsFresh(s: State, a: Action)
    requires LogSaltsFresh(s) && TxSaltsFresh(s)
    ensures TxSaltsFresh(Step(s, a))
  {
  }

  // ---- Reset tokens ---------------------------------------------------------

  predicate MintedFor(log: seq<Event>, d: Digest<string>, user: UserId) {
    exists i :: 0 <= i < |log| && log[i].Minted? && log[i].digest == d && log[i].user == user
  }

  // Some committed reset of user ran its retiring UPDATE after d was minted.
  predicate RetiredBy(log: seq<Event>, d: Digest<string>, user: UserId) {
    log != [] &&
    var e := log[|log| - 1];
    || RetiredBy(log[..|log| - 1], d, user)
    || (e.ResetCommitted? && e.user == user && e.ranAt < |log| && MintedFor(log[..e.ranAt], d, user))
  }

  lemma RetiredAppend(log: seq<Event>, e: Event, d: Digest<string>, user: UserId)
    ensures RetiredBy(log + [e], d, user) <==>
            || RetiredBy(log, d, user)
            || (e.ResetCommitted? && e.user == user && e.ranAt <= |log| && MintedFor(log[..e.ranAt], d, user))
  {
    assert (log + [e])[..|log|] == log;
    if e.ResetCommitted? && e.ranAt <= |log| {
      assert (log + [e])[..e.ranAt] == log[..e.ranAt];
    }
  }

  lemma {:induction false} RetiredWasMinted(log: seq<Event>, d: Digest<string>, user: UserId)
    requires RetiredBy(log, d, user)
    ensures MintedFor(log, d, user)
  {
    var init, e := log[..|log| - 1], log[|log| - 1];
    if RetiredBy(init, d, user) {
      RetiredWasMinted(init, d, user);
    }
  }

  // Each row is one mint of an existing user, and each mint of one is a row.
  ghost predicate RowsAreMints(s: State) {
    && (forall d :: d in s.tables.tokens ==>
          && s.tables.tokens[d].user in s.tables.users
          && MintedFor(s.log, d, s.tables.tokens[d].user))
    && (forall i :: 0 <= i < |s.log| && s.log[i].Minted? && s.log[i].user in s.tables.users ==>
          && s.log[i].digest in s.tables.tokens
          && s.tables.tokens[s.log[i].digest].user == s.log[i].user
          && s.tables.tokens[s.log[i].digest].expiresAt == s.log[i].expiresAt)
    && (forall i, j :: 0 <= i < j < |s.log| && s.log[i].Minted? && s.log[j].Minted? ==>
          s.log[i].digest != s.log[j].digest)
  }

  ghost predicate UsedAreRetired(s: State) {
    forall d :: d in s.tables.tokens ==>
      (s.tables.tokens[d].usedAt.Some? <==> RetiredBy(s.log, d, s.tables.tokens[d].user))
  }

  predicate ToRetire(s: State, tx: Tx, d: Digest<string>)
    requires tx.Retiring? && tx.ranAt <= |s.log|
  {
    && d in s.tables.tokens && s.tables.tokens[d].user == tx.user && s.tables.tokens[d].usedAt.None?
    && MintedFor(s.log[..tx.ranAt], d, tx.user)
  }

  // The rows a running reset has retired stay unused, and stay its user's,
  // until it commits: nothing else writes them while it holds the row lock.
  ghost predicate RetiringHolds(s: State) {
    forall t :: t in s.txs && s.txs[t].Retiring? ==>
      && s.txs[t].ranAt <= |s.log|
      && forall d :: d in s.txs[t].retired <==> ToRetire(s, s.txs[t], d)
  }

  lemma MintedForStays(s: State, a: Action, d: Digest<string>, user: UserId)
    requires MintedFor(s.log, d, user)
    ensures MintedFor(Step(s, a).log, d, user)
  {
    LogStep(s, a);
    var i :| 0 <= i < |s.log| && s.log[i].Minted? && s.log[i].digest == d && s.log[i].user == user;
    assert Step(s, a).log[i] == s.log[i];
  }

  lemma RowStaysMinted(s: State, a: Action, d: Digest<string>)
    requires RowsAreMints(s) && RetiringHolds(s) && d in Step(s, a).tables.tokens
    ensures Step(s, a).tables.tokens[d].user in Step(s, a).tables.users
    ensures MintedFor(Step(s, a).log, d, Step(s, a).tables.tokens[d].user)
  {
    if d in s.tables.tokens {
      MintedForStays(s, a, d, s.tables.tokens[d].user);
    } else {
      assert Step(s, a).log[|s.log|] == Minted(Sha256(a.token), a.user, a.expiresAt);
    }
  }

  lemma StepKeepsRowsAreMints(s: State, a: Action)
    requires RowsAreMints(s) && RetiringHolds(s)
    ensures RowsAreMints(Step(s, a))
  {
    var s' := Step(s, a);
    LogStep(s, a);
    forall d | d in s'.tables.tokens
      ensures s'.tables.tokens[d].user in s'.tables.users && MintedFor(s'.log, d, s'.tables.tokens[d].user)
    {
      RowStaysMinted(s, a, d);
    }
    if a.Mint? && s'.log != s.log {
      assert s'.log[|s.log|] == Minted(Sha256(a.token), a.user, a.expiresAt);
    }
  }

  lemma CommitKeepsRowRetired(s: State, i: nat, d: Digest<string>)
    requires UsedAreRetired(s) && RetiringHolds(s)
    requires i in s.txs && s.txs[i].Retiring? && d in s.tables.tokens
    ensures var s' := Step(s, Commit(i));
            s'.tables.tokens[d].usedAt.Some? <==> RetiredBy(s'.log, d, s'.tables.tokens[d].user)
  {
    var tx, u := s.txs[i], s.tables.tokens[d].user;
    RetiredAppend(s.log, ResetCommitted(tx.start, tx.user, tx.hash, tx.digest, tx.foundAt, tx.ranAt), d, u);
    assert d in tx.retired <==> ToRetire(s, tx, d);
  }

  lemma RowStaysRetired(s: State, a: Action, d: Digest<string>)
    requires RowsAreMints(s) && UsedAreRetired(s) && RetiringHolds(s)
    requires Step(s, a).log != s.log && d in Step(s, a).tables.tokens
    ensures var t' := Step(s, a).tables.tokens[d]; t'.usedAt.Some? <==> RetiredBy(Step(s, a).log, d, t'.user)
  {
    if a.Commit? {
      CommitKeepsRowRetired(s, a.tx, d);
    } else {
      var s' := Step(s, a);
      var u := s'.tables.tokens[d].user;
      RetiredAppend(s.log, s'.log[|s.log|], d, u);
      if a.Mint? && RetiredBy(s.log, d, u) {
        RetiredWasMinted(s.log, d, u);
      }
    }
  }

  lemma StepKeepsUsedAreRetired(s: State, a: Action)
    requires RowsAreMints(s) && UsedAreRetired(s) && RetiringHolds(s)
    ensures UsedAreRetired(Step(s, a))
  {
    if Step(s, a).log != s.log {
      forall d | d in Step(s, a).tables.tokens
        ensures var t' := Step(s, a).tables.tokens[d]; t'.usedAt.Some? <==> RetiredBy(Step(s, a).log, d, t'.user)
      {
        RowStaysRetired(s, a, d);
      }
    }
  }

  lemma ToRetireStays(s: State, a: Action, t: nat, d: Digest<string>)
    requires RowsAreMints(s) && RetiringHolds(s) && LocksHeld(s)
    requires t in s.txs && t in Step(s, a).txs && s.txs[t] == Step(s, a).txs[t] && s.txs[t].Retiring?
    ensures s.txs[t].ranAt <= |s.log| <= |Step(s, a).log|
    ensures ToRetire(Step(s, a), s.txs[t], d) <==> ToRetire(s, s.txs[t], d)
  {
    assert s.txs[t].ranAt <= |s.log|;
    assert Step(s, a).log[..s.txs[t].ranAt] == s.log[..s.txs[t].ranAt];
  }

  lemma StepKeepsRetiringHolds(s: State, a: Action)
    requires RowsAreMints(s) && RetiringHolds(s) && LocksHeld(s)
    ensures RetiringHolds(Step(s, a))
  {
    var s' := Step(s, a);
    forall t | t in s'.txs && s'.txs[t].Retiring?
      ensures s'.txs[t].ranAt <= |s'.log|
      ensures forall d :: d in s'.txs[t].retired <==> ToRetire(s', s'.txs[t], d)
    {
      if t in s.txs && s.txs[t] == s'.txs[t] {
        forall d ensures d in s'.txs[t].retired <==> s'.txs[t].ranAt <= |s'.log| && ToRetire(s', s'.txs[t], d) {
          ToRetireStays(s, a, t, d);
        }
      } else {
        assert a == RetireTokens(t);
        assert s.log[..|s.log|] == s.log;
      }
    }
  }

  // What a reset started at start saw of its token when the log was this long.
  ghost predicate ReadLive(log: seq<Event>, d: Digest<string>, user: UserId, start: int, foundAt: nat) {
    && foundAt <= |log| && !RetiredBy(log[..foundAt], d, user)
    && exists i :: 0 <= i < foundAt && log[i].Minted? && log[i].digest == d && log[i].user == user
                   && log[i].expiresAt > start
  }

  ghost predicate TxReadLive(log: seq<Event>, tx: Tx) {
    && ReadLive(log, tx.digest, tx.user, tx.start, tx.foundAt)
    && (tx.Retiring? ==> tx.foundAt <= tx.ranAt <= |log|)
  }

  ghost predicate RunningReadLive(s: State) {
    forall t :: t in s.txs ==> TxReadLive(s.log, s.txs[t])
  }

  ghost predicate CommittedReadLive(log: seq<Event>) {
    forall j :: 0 <= j < |log| && log[j].ResetCommitted? ==>
      && log[j].foundAt <= log[j].ranAt <= j
      && ReadLive(log, log[j].digest, log[j].user, log[j].start, log[j].foundAt)
  }

  lemma ReadLiveAppend(log: seq<Event>, e: Event, d: Digest<string>, user: UserId, start: int, foundAt: nat)
    requires ReadLive(log, d, user, start, foundAt)
    ensures ReadLive(log + [e], d, user, start, foundAt)
  {
    assert (log + [e])[..foundAt] == log[..foundAt];
    var i :| 0 <= i < foundAt && log[i].Minted? && log[i].digest == d && log[i].user == user
             && log[i].expiresAt > start;
    assert (log + [e])[i] == log[i];
  }

  lemma FindTokenReadsLive(s: State, token: string, start: int)
    requires RowsAreMints(s) && UsedAreRetired(s) && Live(s.tables, token, start)
    ensures ReadLive(s.log, Sha256(token), s.tables.tokens[Sha256(token)].user, start, |s.log|)
  {
    assert s.log[..|s.log|] == s.log;
    assert MintedFor(s.log, Sha256(token), s.tables.tokens[Sha256(token)].user);
  }

  // A running reset was running before, and read what it had read; or it has
  // just found its token.
  lemma TxComesFrom(s: State, a: Action, t: nat)
    requires t in Step(s, a).txs
    ensures var tx := Step(s, a).txs[t];
            if t in s.txs then
              && s.txs[t].digest == tx.digest && s.txs[t].user == tx.user
              && s.txs[t].start == tx.start && s.txs[t].foundAt == tx.foundAt
              && (tx.Retiring? ==> s.txs[t] == tx || (tx.ranAt == |s.log| && Step(s, a).log == s.log))
            else
              && a.FindToken? && Live(s.tables, a.token, a.start) && Step(s, a).log == s.log
              && tx == Found(a.start, s.tables.tokens[Sha256(a.token)].user, Sha256(a.token), |s.log|, a.password)
  {
  }

  lemma TxReadLiveGrows(log: seq<Event>, log': seq<Event>, before: Tx, tx: Tx)
    requires log' == log || (|log'| == |log| + 1 && log' == log + [log'[|log|]])
    requires TxReadLive(log, before) && before.digest == tx.digest && before.user == tx.user
    requires before.start == tx.start && before.foundAt == tx.foundAt
    requires tx.Retiring? ==> before == tx || (tx.ranAt == |log| && log' == log)
    ensures TxReadLive(log', tx)
  {
    if log' != log {
      ReadLiveAppend(log, log'[|log|], tx.digest, tx.user, tx.start, tx.foundAt);
    }
  }

  lemma TxKeepsReadLive(s: State, a: Action, t: nat)
    requires RowsAreMints(s) && UsedAreRetired(s) && RunningReadLive(s) && t in Step(s, a).txs
    ensures TxReadLive(Step(s, a).log, Step(s, a).txs[t])
  {
    TxComesFrom(s, a, t);
    if t in s.txs {
      LogStep(s, a);
      TxReadLiveGrows(s.log, Step(s, a).log, s.txs[t], Step(s, a).txs[t]);
    } else {
      FindTokenReadsLive(s, a.token, a.start);
    }
  }

  lemma StepKeepsRunningReadLive(s: State, a: Action)
    requires RowsAreMints(s) && UsedAreRetired(s) && RunningReadLive(s)
    ensures RunningReadLive(Step(s, a))
  {
    forall t | t in Step(s, a).txs ensures TxReadLive(Step(s, a).log, Step(s, a).txs[t]) {
      TxKeepsReadLive(s, a, t);
    }
  }

  lemma StepKeepsCommittedReadLive(s: State, a: Action)
    requires RunningReadLive(s) && CommittedReadLive(s.log)
    ensures CommittedReadLive(Step(s, a).log)
  {
    var log, log' := s.log, Step(s, a).log;
    if log' != log {
      var e := log'[|log|];
      assert log' == log + [e];
      forall j | 0 <= j < |log'| && log'[j].ResetCommitted?
        ensures log'[j].foundAt <= log'[j].ranAt <= j
        ensures ReadLive(log', log'[j].digest, log'[j].user, log'[j].start, log'[j].foundAt)
      {
        ReadLiveAppend(log, e, log'[j].digest, log'[j].user, log'[j].start, log'[j].foundAt);
      }
    }
  }

  // ---- The invariant and its consequences -----------------------------------

  ghost predicate Inv(s: State) {
    && Generations(s) && LogSaltsFresh(s) && TxSaltsFresh(s) && LocksHeld(s)
    && RowsAreMints(s) && UsedAreRetired(s) && RetiringHolds(s)
    && RunningReadLive(s) && CommittedReadLive(s.log)
  }

  lemma StepKeepsInv(s: State, a: Action)
    requires Inv(s)
    ensures Inv(Step(s, a))
  {
    StepKeepsGenerations(s, a);
    StepKeepsLogSaltsFresh(s, a);
    StepKeepsTxSaltsFresh(s, a);
    StepKeepsLocks(s, a);
    StepKeepsRowsAreMints(s, a);
    StepKeepsUsedAreRetired(s, a);
    StepKeepsRetiringHolds(s, a);
    StepKeepsRunningReadLive(s, a);
    StepKeepsCommittedReadLive(s, a);
  }

  lemma {:induction false} RunKeepsInv(s: State, actions: seq<Action>)
    requires Inv(s)
    ensures Inv(Run(s, actions))
    decreases |actions|
  {
    if actions != [] {
      StepKeepsInv(s, actions[0]);
      RunKeepsInv(Step(s, actions[0]), actions[1..]);
    }
  }

  ghost predicate LiveByHistory(log: seq<Event>, token: string, now: int) {
    exists i :: 0 <= i < |log| && log[i].Minted? && log[i].digest == Sha256(token)
                && log[i].expiresAt > now && Current(log, log[i].user).Some?
                && !RetiredBy(log, Sha256(token), log[i].user)
  }

  // After any run, a token is found live exactly when it was minted for a user
  // still there, has not expired, and no committed reset of that user ran its
  // retiring UPDATE after the mint.
  lemma LiveExactly(s: State, actions: seq<Action>, token: string, now: int)
    requires Start(s)
    ensures Live(Run(s, actions).tables, token, now) <==> LiveByHistory(Run(s, actions).log, token, now)
  {
    RunKeepsInv(s, actions);
    var r, d := Run(s, actions), Sha256(token);
    if Live(r.tables, token, now) {
      var i :| 0 <= i < |r.log| && r.log[i].Minted? && r.log[i].digest == d && r.log[i].user == r.tables.tokens[d].user;
      assert r.log[i].expiresAt > now;
    }
  }

  ghost predicate MintedOnce(log: seq<Event>) {
    forall i, j :: 0 <= i < j < |log| && log[i].Minted? && log[j].Minted? ==> log[i].digest != log[j].digest
  }

  lemma OneOwner(log: seq<Event>, d: Digest<string>, u: UserId, v: UserId)
    requires MintedOnce(log) && MintedFor(log, d, u) && MintedFor(log, d, v)
    ensures u == v
  {
  }

  lemma ReadLiveWasMinted(log: seq<Event>, d: Digest<string>, u: UserId, start: int, f: nat, g: nat)
    requires f <= g <= |log| && ReadLive(log, d, u, start, f)
    ensures MintedFor(log[..g], d, u) && MintedFor(log, d, u)
  {
    var m :| 0 <= m < f && log[m].Minted? && log[m].digest == d && log[m].user == u && log[m].expiresAt > start;
    assert log[..g][m] == log[m];
  }

  lemma {:induction false} RetiredFrom(log: seq<Event>, i: nat, d: Digest<string>)
    requires i < |log| && log[i].ResetCommitted? && log[i].ranAt <= i
    requires MintedFor(log[..log[i].ranAt], d, log[i].user)
    ensures RetiredBy(log, d, log[i].user)
  {
    if i < |log| - 1 {
      var init := log[..|log| - 1];
      assert init[..log[i].ranAt] == log[..log[i].ranAt];
      RetiredFrom(init, i, d);
    }
  }

  lemma ResetsOfOneTokenOverlap(log: seq<Event>, i: nat, j: nat)
    requires MintedOnce(log) && CommittedReadLive(log)
    requires i < j < |log| && log[i].ResetCommitted? && log[j].ResetCommitted? && log[i].digest == log[j].digest
    ensures log[j].foundAt <= i
  {
    var d, g := log[i].digest, log[j].foundAt;
    ReadLiveWasMinted(log, d, log[i].user, log[i].start, log[i].foundAt, log[i].ranAt);
    ReadLiveWasMinted(log, d, log[j].user, log[j].start, g, g);
    OneOwner(log, d, log[i].user, log[j].user);
    if i < g {
      assert log[..g][..log[i].ranAt] == log[..log[i].ranAt];
      RetiredFrom(log[..g], i, d);
      assert false;
    }
  }

  // Every committed reset presented a token minted for its own user, unexpired
  // when it started, that no reset committed by then had retired.
  lemma EveryResetHadALiveToken(s: State, actions: seq<Action>, j: nat)
    requires Start(s) && j < |Run(s, actions).log| && Run(s, actions).log[j].ResetCommitted?
    ensures var log, e := Run(s, actions).log, Run(s, actions).log[j];
            && e.foundAt <= e.ranAt <= j && ReadLive(log, e.digest, e.user, e.start, e.foundAt)
  {
    RunKeepsInv(s, actions);
  }

  // Two committed resets by one token always overlapped: the second had read
  // the token live before the first committed.
  lemma OneTokenTwoResetsOverlap(s: State, actions: seq<Action>, i: nat, j: nat)
    requires Start(s)
    requires i < j < |Run(s, actions).log|
    requires Run(s, actions).log[i].ResetCommitted? && Run(s, actions).log[j].ResetCommitted?
    requires Run(s, actions).log[i].digest == Run(s, actions).log[j].digest
    ensures Run(s, actions).log[j].foundAt <= i
  {
    RunKeepsInv(s, actions);
    ResetsOfOneTokenOverlap(Run(s, actions).log, i, j);
  }

  lemma UsedRowStays(s: State, a: Action, d: Digest<string>)
    requires RowsAreMints(s) && RetiringHolds(s)
    requires d in s.tables.tokens && s.tables.tokens[d].usedAt.Some?
    ensures d in Step(s, a).tables.tokens ==> Step(s, a).tables.tokens[d] == s.tables.tokens[d]
  {
    if a.Mint? && Sha256(a.token) == d {
      assert MintedFor(s.log, d, s.tables.tokens[d].user);
      assert EverMinted(s.log, d);
    }
  }

  // After any run, whatever comes next, used_at is written at most once.
  lemma UsedAtIsWrittenOnce(s: State, actions: seq<Action>, a: Action, d: Digest<string>)
    requires Start(s)
    requires d in Run(s, actions).tables.tokens && Run(s, actions).tables.tokens[d].usedAt.Some?
    ensures var r, r' := Run(s, actions), Step(Run(s, actions), a);
            d in r'.tables.tokens ==> r'.tables.tokens[d] == r.tables.tokens[d]
  {
    RunKeepsInv(s, actions);
    UsedRowStays(Run(s, actions), a, d);
  }

  // A reset is all or nothing: no step of it but its commit touches a table,
  // and the commit installs the new password and retires exactly its user's
  // tokens minted and open when it looked, and leaves everyone else alone.
  lemma ResetIsAtomic(s: State, a: Action)
    requires LocksHeld(s) && RetiringHolds(s)
    requires a.FindToken? || a.Hash? || a.UpdateUser? || a.RetireTokens? || a.Commit? || a.Rollback?
    ensures var s' := Step(s, a);
            if a.Commit? && a.tx in s.txs && s.txs[a.tx].Retiring? then
              var tx := s.txs[a.tx];
              && s'.tables.users == s.tables.users[tx.user := s.tables.users[tx.user].(hash := tx.hash)]
              && s'.tables.tokens.Keys == s.tables.tokens.Keys
              && forall d :: d in s.tables.tokens ==>
                   s'.tables.tokens[d] ==
                   if s.tables.tokens[d].user == tx.user && s.tables.tokens[d].usedAt.None?
                      && MintedFor(s.log[..tx.ranAt], d, tx.user)
                   then s.tables.tokens[d].(usedAt := Some(tx.start)) else s.tables.tokens[d]
            else s'.tables == s.tables
  {
  }

  // A token minted between a reset's retiring UPDATE and its commit outlives
  // that commit.
  lemma LateMintSurvives(s: State, tx: nat, token: string, expiresAt: int, now: int)
    requires RowsAreMints(s) && RetiringHolds(s) && LocksHeld(s)
    requires tx in s.txs && s.txs[tx].Retiring?
    requires !EverMinted(s.log, Sha256(token)) && now < expiresAt
    ensures var u := s.txs[tx].user;
            var s' := Step(Step(s, Mint(token, u, expiresAt)), Commit(tx));
            && |s'.log| == |s.log| + 2
            && s'.log[|s.log|] == Minted(Sha256(token), u, expiresAt)
            && s'.log[|s.log| + 1].ResetCommitted? && s'.log[|s.log| + 1].user == u
            && Live(s'.tables, token, now)
  {
    assert Sha256(token) !in s.tables.tokens;
    assert Sha256(token) !in s.txs[tx].retired;
  }

  // The rest of one reset, run without interference.
  lemma FinishReset(s: State, tx: nat) returns (s': State)
    requires tx in s.txs && s.txs[tx].Hashed?
    requires s.txs[tx].user in s.tables.users && !Locked(s, s.txs[tx].user)
    ensures s' == Run(s, [UpdateUser(tx), RetireTokens(tx), Commit(tx)])
    ensures var t := s.txs[tx];
            s'.log == s.log + [ResetCommitted(t.start, t.user, t.hash, t.digest, t.foundAt, |s.log|)]
    ensures s'.txs == s.txs - {tx} && s'.tables.users.Keys == s.tables.users.Keys
    ensures s'.tables == Retire(SetPassword(s.tables, s.txs[tx].user, s.txs[tx].hash),
                                Outstanding(s.tables, s.txs[tx].user), s.txs[tx].start)
  {
    var s1 := Step(s, UpdateUser(tx));
    var s2 := Step(s1, RetireTokens(tx));
    s' := Step(s2, Commit(tx));
    assert s'.txs == s.txs - {tx};
    RunOfThree(s, UpdateUser(tx), RetireTokens(tx), Commit(tx), []);
    assert [UpdateUser(tx), RetireTokens(tx), Commit(tx)] + [] == [UpdateUser(tx), RetireTokens(tx), Commit(tx)];
  }

  lemma RunOfThree(s: State, a: Action, b: Action, c: Action, rest: seq<Action>)
    ensures Run(s, [a, b, c] + rest) == Run(Step(Step(Step(s, a), b), c), rest)
  {
    var actions := [a, b, c] + rest;
    assert actions[1..] == [b, c] + rest;
    assert actions[1..][1..] == [c] + rest;
    assert actions[1..][1..][1..] == rest;
    assert Run(s, actions) == Run(Step(s, a), actions[1..]);
    assert Run(Step(s, a), actions[1..]) == Run(Step(Step(s, a), b), actions[1..][1..]);
  }

  // Single use is not promised to resets that overlap: two that both read the
  // token live both commit, one after the other.
  lemma OverlappingResetsBothCommit(s: State, a: nat, b: nat) returns (mid: State, s': State)
    requires a != b && a in s.txs && b in s.txs && s.txs[a].Hashed? && s.txs[b].Hashed?
    requires s.txs[a].digest == s.txs[b].digest && s.txs[a].user == s.txs[b].user
    requires s.txs[a].user in s.tables.users && !Locked(s, s.txs[a].user)
    ensures mid == Run(s, [UpdateUser(a), RetireTokens(a), Commit(a)])
    ensures s' == Run(mid, [UpdateUser(b), RetireTokens(b), Commit(b)])
    ensures |s'.log| == |s.log| + 2 && s'.log[|s.log|].ResetCommitted? && s'.log[|s.log| + 1].ResetCommitted?
    ensures s'.log[|s.log|].digest == s'.log[|s.log| + 1].digest == s.txs[a].digest
  {
    mid := FinishReset(s, a);
    s' := FinishReset(mid, b);
  }

  lemma {:induction false} LastSet(log: seq<Event>, user: UserId) returns (m: nat)
    requires Current(log, user).Some?
    ensures m < |log| && SetsPassword(log[m]) && log[m].user == user && Current(log, user) == Some(log[m].hash)
    ensures forall k :: m < k < |log| ==> !(SetsPassword(log[k]) && log[k].user == user)
  {
    m := |log| - 1;
    if log[m].user != user || log[m].Minted? {
      m := LastSet(log[..m], user);
    }
  }

  lemma SameHashNoSetBetween(log: seq<Event>, user: UserId, i: nat, j: nat)
    requires i <= j <= |log|
    requires forall m, n :: 0 <= m < n < |log| && SetsPassword(log[m]) && SetsPassword(log[n]) ==>
               log[m].hash != log[n].hash
    requires Current(log[..i], user).Some? && Current(log[..i], user) == Current(log[..j], user)
    ensures forall k :: i <= k < j ==> !(SetsPassword(log[k]) && log[k].user == user)
  {
    var m := LastSet(log[..i], user);
    var n := LastSet(log[..j], user);
    assert log[m].hash == log[n].hash && m == n;
    forall k | i <= k < j ensures !(SetsPassword(log[k]) && log[k].user == user) {
      assert log[..j][k] == log[k];
    }
  }

  // A generation never comes back: between two points where the user's hash is
  // the same, no password of that user was set.
  lemma SameHashMeansNoReset(s: State, actions: seq<Action>, user: UserId, i: nat, j: nat)
    requires Start(s) && i <= j <= |Run(s, actions).log|
    requires Current(Run(s, actions).log[..i], user).Some?
    requires Current(Run(s, actions).log[..i], user) == Current(Run(s, actions).log[..j], user)
    ensures forall k :: i <= k < j ==> !(SetsPassword(Run(s, actions).log[k]) && Run(s, actions).log[k].user == user)
  {
    RunKeepsInv(s, actions);
    SameHashNoSetBetween(Run(s, actions).log, user, i, j);
  }

  // ---- Runs from the start -------------------------------------------------------

  lemma RunStep(s: State, a: Action, rest: seq<Action>)
    ensures Run(s, [a] + rest) == Run(Step(s, a), rest)
  {
    assert ([a] + rest)[1..] == rest;
  }

  lemma {:induction false} RunJoins(s: State, a: seq<Action>, b: seq<Action>)
    ensures Run(s, a + b) == Run(Run(s, a), b)
    decreases |a|
  {
    if a == [] {
      assert a + b == b;
    } else {
      RunJoins(Step(s, a[0]), a[1..], b);
      assert a + b == [a[0]] + (a[1..] + b);
      RunStep(s, a[0], a[1..] + b);
    }
  }

  // One user with one token, and the user's requests to reset with it.
  datatype Case = Case(user: UserId, email: string, password: string, token: string)

  // Created with salt 0, and minted a token that is live at the clock's reading.
  function Opened(s: State, c: Case): State {
    var hash := Argon2(c.password, 0);
    State(s.clock, Tables(map[c.user := User(c.email, hash)], map[Sha256(c.token) := Token(c.user, s.clock + 1, None)]),
          {0}, map[], [Created(c.user, c.email, hash), Minted(Sha256(c.token), c.user, s.clock + 1)])
  }

  function Opening(s: State, c: Case): seq<Action> {
    [Create(c.user, c.email, c.password, 0), Mint(c.token, c.user, s.clock + 1)]
  }

  lemma OpeningOpens(s: State, c: Case)
    requires Start(s) && ValidatePassword(c.password).None?
    ensures Run(s, Opening(s, c)) == Opened(s, c)
  {
    var create, mint := Create(c.user, c.email, c.password, 0), Mint(c.token, c.user, s.clock + 1);
    var s1, hash := Step(s, create), Argon2(c.password, 0);
    assert s1 == State(s.clock, Tables(map[c.user := User(c.email, hash)], map[]), {0}, map[],
                       [Created(c.user, c.email, hash)]);
    assert Step(s1, mint) == Opened(s, c);
    RunStep(s, create, [mint]);
    RunStep(s1, mint, []);
    assert [create] + [mint] == Opening(s, c) && [mint] + [] == [mint];
  }

  function HashedTx(s: State, c: Case, salt: nat): Tx {
    Hashed(s.clock, c.user, Sha256(c.token), 2, Argon2(c.password, salt))
  }

  // A reset reads the token live and hashes, the others standing as they are.
  lemma ReadAndHash(s: State, o: State, c: Case, tx: nat, salt: nat)
    requires ValidatePassword(c.password).None?
    requires o == Opened(s, c).(txs := o.txs, salts := o.salts) && tx !in o.txs && salt !in o.salts
    ensures Run(o, [FindToken(tx, c.token, c.password, s.clock), Hash(tx, salt)]) ==
            o.(txs := o.txs[tx := HashedTx(s, c, salt)], salts := o.salts + {salt})
  {
    var find, hash := FindToken(tx, c.token, c.password, s.clock), Hash(tx, salt);
    var o1 := Step(o, find);
    assert o1 == o.(txs := o.txs[tx := Found(s.clock, c.user, Sha256(c.token), 2, c.password)]);
    assert Step(o1, hash) == o.(txs := o.txs[tx := HashedTx(s, c, salt)], salts := o.salts + {salt});
    RunStep(o, find, [hash]);
    RunStep(o1, hash, []);
    assert [find] + [hash] == [find, hash] && [hash] + [] == [hash];
  }

  lemma RunFour(s: State, a: seq<Action>, b: seq<Action>, c: seq<Action>, d: seq<Action>)
    ensures Run(s, a + (b + (c + d))) == Run(Run(Run(Run(s, a), b), c), d)
  {
    RunJoins(s, a, b + (c + d));
    RunJoins(Run(s, a), b, c + d);
    RunJoins(Run(Run(s, a), b), c, d);
  }

  // From the start, one token resets its user's password twice.
  lemma OneTokenResetsTwice(s: State, c: Case) returns (actions: seq<Action>)
    requires Start(s) && ValidatePassword(c.password).None?
    ensures var log := Run(s, actions).log;
            && |log| == 4 && log[2].ResetCommitted? && log[3].ResetCommitted?
            && log[2].digest == log[3].digest == Sha256(c.token)
            && log[2].user == log[3].user == c.user
  {
    var o := Opened(s, c);
    var first, second := [FindToken(0, c.token, c.password, s.clock), Hash(0, 1)],
                         [FindToken(1, c.token, c.password, s.clock), Hash(1, 2)];
    OpeningOpens(s, c);
    ReadAndHash(s, o, c, 0, 1);
    var o1 := Run(o, first);
    ReadAndHash(s, o1, c, 1, 2);
    var o2 := Run(o1, second);
    var mid, end := OverlappingResetsBothCommit(o2, 0, 1);
    var one, two := [UpdateUser(0), RetireTokens(0), Commit(0)], [UpdateUser(1), RetireTokens(1), Commit(1)];
    actions := Opening(s, c) + (first + (second + (one + two)));
    RunFour(s, Opening(s, c), first, second, one + two);
    RunJoins(o2, one, two);
  }

  lemma MintThenCommit(o: State, user: UserId, late: string, expiresAt: int)
    requires 0 in o.txs && o.txs[0].Retiring? && o.txs[0].user == user && user in o.tables.users
    requires Sha256(late) !in o.txs[0].retired && !EverMinted(o.log, Sha256(late)) && o.clock < expiresAt
    ensures var r := Run(o, [Mint(late, user, expiresAt), Commit(0)]);
            && |r.log| == |o.log| + 2 && r.log[..|o.log|] == o.log
            && r.log[|o.log|] == Minted(Sha256(late), user, expiresAt)
            && r.log[|o.log| + 1].ResetCommitted? && r.log[|o.log| + 1].user == user && Live(r.tables, late, o.clock)
  {
    var mint := Mint(late, user, expiresAt);
    RunStep(o, mint, [Commit(0)]);
    RunStep(Step(o, mint), Commit(0), []);
    assert [mint] + [Commit(0)] == [mint, Commit(0)] && [Commit(0)] + [] == [Commit(0)];
  }

  // From the start, a token minted while a reset runs is live after it commits.
  lemma LateMintFromTheStart(s: State, c: Case, late: string) returns (actions: seq<Action>)
    requires Start(s) && ValidatePassword(c.password).None? && late != c.token
    ensures var r := Run(s, actions);
            && |r.log| == 4 && r.log[2] == Minted(Sha256(late), c.user, s.clock + 1)
            && r.log[3].ResetCommitted? && r.log[3].user == c.user && Live(r.tables, late, s.clock)
  {
    var o := Opened(s, c);
    var first, middle := [FindToken(0, c.token, c.password, s.clock), Hash(0, 1)], [UpdateUser(0), RetireTokens(0)];
    var last := [Mint(late, c.user, s.clock + 1), Commit(0)];
    OpeningOpens(s, c);
    ReadAndHash(s, o, c, 0, 1);
    var o1 := Run(o, first);
    var o2 := RetiredTx(o1, s, c);
    MintThenCommit(o2, c.user, late, s.clock + 1);
    actions := Opening(s, c) + (first + (middle + last));
    RunFour(s, Opening(s, c), first, middle, last);
  }

  lemma RetiredTx(o: State, s: State, c: Case) returns (r: State)
    requires o == Opened(s, c).(txs := map[0 := HashedTx(s, c, 1)], salts := {0, 1})
    ensures r == Run(o, [UpdateUser(0), RetireTokens(0)])
    ensures r == o.(txs := map[0 := Retiring(s.clock, c.user, Sha256(c.token), 2, Argon2(c.password, 1),
                                             {Sha256(c.token)}, 2)])
  {
    var o1 := Step(o, UpdateUser(0));
    var done := Updated(s.clock, c.user, Sha256(c.token), 2, Argon2(c.password, 1));
    assert o1 == o.(txs := map[0 := done]);
    r := Step(o1, RetireTokens(0));
    assert Outstanding(o1.tables, c.user) == {Sha256(c.token)};
    RunStep(o, UpdateUser(0), [RetireTokens(0)]);
    RunStep(o1, RetireTokens(0), []);
    assert [UpdateUser(0)] + [RetireTokens(0)] == [UpdateUser(0), RetireTokens(0)];
    assert [RetireTokens(0)] + [] == [RetireTokens(0)];
  }
}
