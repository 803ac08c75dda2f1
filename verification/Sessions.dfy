// Sessions across password generations (web/auth.go, web/handlers_auth.go). A
// request works on its own copy of a session blob and writes the whole blob
// back when it ends, so concurrent requests overwrite one another; database
// statements of accounts and other requests run in between.
module Sessions {
  import opened Accounts
  import A = Accounts
  import opened Wrappers

  // A sign-in whose compare of password succeeded against hash, read when the
  // account log had length readAt.
  datatype Signin = Signin(user: UserId, hash: PasswordHash, readAt: nat, password: string)

  // signin is history: the sign-in that wrote the pair. No step reads it.
  datatype Blob = Blob(userId: Option<UserId>, epoch: Option<Digest<PasswordHash>>, signin: Option<Signin>)

  const EMPTY := Blob(None, None, None)

  function PasswordEpoch(hash: PasswordHash): Digest<PasswordHash> {
    Sha256(hash)
  }

  // Loaded precedes LoadUser; Serving carries the user LoadUser attached.
  datatype Phase =
    | Loaded
    | Serving(user: Option<UserId>)
    | Matching(id: UserId, hash: PasswordHash, readAt: nat)
    | Matched(id: UserId, hash: PasswordHash, readAt: nat, password: string)

  // cookie is the store key the blob came from and returns to; live is false
  // once the session is destroyed and nothing is to be written back.
  datatype Request = Request(cookie: Option<nat>, blob: Blob, live: bool, phase: Phase)

  // A request LoadUser attached user to on finding hash, read when the account
  // log had length readAt, and the sign-in that wrote the session it came with.
  datatype Serve = Serve(user: UserId, hash: PasswordHash, readAt: nat, signin: Option<Signin>)

  datatype State = State(
    accounts: A.State, sessions: map<nat, Blob>, requests: map<nat, Request>,
    signins: set<Signin>, served: set<Serve>)

  datatype Action =
    | Account(step: A.Action)
    | Arrive(r: nat, cookie: Option<nat>)
    | LoadUser(r: nat)
    | ReadUser(r: nat, id: UserId)
    | Compare(r: nat, password: string)
    | PutUser(r: nat, unused: nat)
    | Signout(r: nat)
    | Finish(r: nat, unused: nat)
    | Crash(r: nat)

  function Drop(sessions: map<nat, Blob>, cookie: Option<nat>): map<nat, Blob> {
    match cookie
    case None => sessions
    case Some(c) => sessions - {c}
  }

  function With(s: State, r: nat, request: Request): State {
    s.(requests := s.requests[r := request])
  }

  function DestroySession(s: State, r: nat): State
    requires r in s.requests
  {
    With(s, r, Request(None, EMPTY, false, Serving(None))).(sessions := Drop(s.sessions, s.requests[r].cookie))
  }

  // The pair a sign-in puts, and its record.
  function WrittenBy(p: Phase): Blob
    requires p.Matched?
  {
    Blob(Some(p.id), Some(PasswordEpoch(p.hash)), Some(Signin(p.id, p.hash, p.readAt, p.password)))
  }

  function LoadUserStep(s: State, r: nat): State
    requires r in s.requests
  {
    var q := s.requests[r];
    match q.blob.userId
    case None => With(s, r, q.(phase := Serving(None)))
    case Some(id) =>
      if id !in s.accounts.tables.users then
        With(s, r, q.(blob := q.blob.(userId := None), phase := Serving(None)))
      else
        var hash := s.accounts.tables.users[id].hash;
        if q.blob.epoch != Some(PasswordEpoch(hash)) then DestroySession(s, r)
        else With(s, r, q.(phase := Serving(Some(id)))).(
               served := s.served + {Serve(id, hash, |s.accounts.log|, q.blob.signin)})
  }

  function Step(s: State, a: Action): State {
    match a
    case Account(step) => s.(accounts := A.Step(s.accounts, step))
    case Arrive(r, cookie) =>
      if r in s.requests then s
      else if cookie.Some? && cookie.value in s.sessions then
        With(s, r, Request(cookie, s.sessions[cookie.value], true, Loaded))
      else With(s, r, Request(None, EMPTY, true, Loaded))
    case LoadUser(r) =>
      if r in s.requests && s.requests[r].phase.Loaded? then LoadUserStep(s, r) else s
    case ReadUser(r, id) =>
      if r in s.requests && s.requests[r].phase.Serving? && id in s.accounts.tables.users then
        With(s, r, s.requests[r].(phase := Matching(id, s.accounts.tables.users[id].hash, |s.accounts.log|)))
      else s
    case Compare(r, password) =>
      if r !in s.requests || !s.requests[r].phase.Matching? then s else
      var p := s.requests[r].phase;
      if Verify(password, p.hash) then
        With(s, r, s.requests[r].(phase := Matched(p.id, p.hash, p.readAt, password))).(
          signins := s.signins + {Signin(p.id, p.hash, p.readAt, password)})
      else With(s, r, s.requests[r].(phase := Serving(None)))
    case PutUser(r, unused) =>
      if r !in s.requests || !s.requests[r].phase.Matched? || unused in s.sessions then s else
      var p := s.requests[r].phase;
      With(s, r, Request(Some(unused), WrittenBy(p), true, Serving(None))).(
        sessions := Drop(s.sessions, s.requests[r].cookie))
    case Signout(r) => if r in s.requests && s.requests[r].phase.Serving? then DestroySession(s, r) else s
    case Finish(r, unused) =>
      if r !in s.requests || unused in s.sessions then s else
      var q := s.requests[r];
      s.(requests := s.requests - {r},
         sessions := if !q.live then s.sessions
                     else s.sessions[(if q.cookie.Some? then q.cookie.value else unused) := q.blob])
    case Crash(r) => s.(requests := s.requests - {r})
  }

  // Sessions older than epochs may exist at the start, and carry none.
  ghost predicate Start(s: State) {
    && A.Start(s.accounts) && s.requests == map[] && s.signins == {} && s.served == {}
    && forall c :: c in s.sessions ==> s.sessions[c].epoch.None?
  }

  function Run(s: State, actions: seq<Action>): State
    decreases |actions|
  {
    if actions == [] then s else Run(Step(s, actions[0]), actions[1..])
  }

  // What the code holds of a blob.
  predicate SameBlob(b: Blob, c: Blob) {
    b.userId == c.userId && b.epoch == c.epoch
  }

  predicate SameRequest(q: Request, p: Request) {
    q.cookie == p.cookie && q.live == p.live && q.phase == p.phase && SameBlob(q.blob, p.blob)
  }

  // Two states that differ in the recorded history alone.
  ghost predicate Alike(s: State, t: State) {
    && s.accounts == t.accounts && s.sessions.Keys == t.sessions.Keys && s.requests.Keys == t.requests.Keys
    && (forall c :: c in s.sessions ==> SameBlob(s.sessions[c], t.sessions[c]))
    && (forall r :: r in s.requests ==> SameRequest(s.requests[r], t.requests[r]))
  }

  lemma AccountIsAlike(s: State, t: State, step: A.Action)
    requires Alike(s, t)
    ensures Alike(Step(s, Account(step)), Step(t, Account(step)))
  {
    var accounts := A.Step(s.accounts, step);
    assert Step(s, Account(step)) == s.(accounts := accounts) && Step(t, Account(step)) == t.(accounts := accounts);
  }

  lemma WithIsAlike(s: State, t: State, r: nat, q: Request, p: Request)
    requires Alike(s, t) && SameRequest(q, p)
    ensures Alike(With(s, r, q), With(t, r, p))
  {
  }

  lemma DroppedIsAlike(s: State, t: State, cookie: Option<nat>)
    requires Alike(s, t)
    ensures Alike(s.(sessions := Drop(s.sessions, cookie)), t.(sessions := Drop(t.sessions, cookie)))
  {
  }

  lemma DestroyIsAlike(s: State, t: State, r: nat)
    requires Alike(s, t) && r in s.requests
    ensures Alike(DestroySession(s, r), DestroySession(t, r))
  {
    var gone := Request(None, EMPTY, false, Serving(None));
    assert SameRequest(s.requests[r], t.requests[r]);
    WithIsAlike(s, t, r, gone, gone);
    DroppedIsAlike(With(s, r, gone), With(t, r, gone), s.requests[r].cookie);
  }

  lemma LoadUserIsAlike(s: State, t: State, r: nat)
    requires Alike(s, t) && r in s.requests
    ensures Alike(LoadUserStep(s, r), LoadUserStep(t, r))
  {
    var q, p := s.requests[r], t.requests[r];
    assert SameRequest(q, p);
    DestroyIsAlike(s, t, r);
    WithIsAlike(s, t, r, q.(phase := Serving(None)), p.(phase := Serving(None)));
    WithIsAlike(s, t, r, q.(phase := Serving(q.blob.userId)), p.(phase := Serving(q.blob.userId)));
    WithIsAlike(s, t, r, q.(blob := q.blob.(userId := None), phase := Serving(None)),
                p.(blob := p.blob.(userId := None), phase := Serving(None)));
  }

  lemma ArriveIsAlike(s: State, t: State, r: nat, cookie: Option<nat>)
    requires Alike(s, t)
    ensures Alike(Step(s, Arrive(r, cookie)), Step(t, Arrive(r, cookie)))
  {
    if cookie.Some? && cookie.value in s.sessions {
      WithIsAlike(s, t, r, Request(cookie, s.sessions[cookie.value], true, Loaded),
                  Request(cookie, t.sessions[cookie.value], true, Loaded));
    }
  }

  lemma EndIsAlike(s: State, t: State, a: Action)
    requires Alike(s, t) && (a.Finish? || a.Crash?) && a.r in s.requests
    ensures Alike(Step(s, a), Step(t, a))
  {
    assert SameRequest(s.requests[a.r], t.requests[a.r]);
  }

  lemma PutUserIsAlike(s: State, t: State, r: nat, unused: nat)
    requires Alike(s, t) && r in s.requests
    ensures Alike(Step(s, PutUser(r, unused)), Step(t, PutUser(r, unused)))
  {
    assert SameRequest(s.requests[r], t.requests[r]);
    DroppedIsAlike(s, t, s.requests[r].cookie);
  }

  lemma SigninIsAlike(s: State, t: State, a: Action)
    requires Alike(s, t) && (a.ReadUser? || a.Compare?) && a.r in s.requests
    ensures Alike(Step(s, a), Step(t, a))
  {
    assert SameRequest(s.requests[a.r], t.requests[a.r]);
  }

  lemma SignoutIsAlike(s: State, t: State, a: Action)
    requires Alike(s, t) && a.Signout? && a.r in s.requests
    ensures Alike(Step(s, a), Step(t, a))
  {
    assert SameRequest(s.requests[a.r], t.requests[a.r]);
    DestroyIsAlike(s, t, a.r);
  }

  // No step reads the history it records.
  lemma HistoryIsNotRead(s: State, t: State, a: Action)
    requires Alike(s, t)
    ensures Alike(Step(s, a), Step(t, a))
  {
    match a
    case Account(step) => AccountIsAlike(s, t, step);
    case LoadUser(r) => if r in s.requests { LoadUserIsAlike(s, t, r); }
    case Arrive(r, cookie) => ArriveIsAlike(s, t, r, cookie);
    case PutUser(r, unused) => if r in s.requests { PutUserIsAlike(s, t, r, unused); }
    case _ =>
      if a.r in s.requests {
        if a.Finish? || a.Crash? {
          EndIsAlike(s, t, a);
        } else if a.Signout? {
          SignoutIsAlike(s, t, a);
        } else {
          SigninIsAlike(s, t, a);
        }
      }
  }

  // Both halves of a blob are what its own sign-in wrote, whatever overwrote what.
  predicate SignedIn(signins: set<Signin>, b: Blob) {
    b.userId.Some? && b.epoch.Some? ==>
      && b.signin.Some? && b.signin.value in signins
      && b.signin.value.user == b.userId.value && PasswordEpoch(b.signin.value.hash) == b.epoch.value
  }

  ghost predicate StoredSignedIn(s: State) {
    forall c :: c in s.sessions ==> SignedIn(s.signins, s.sessions[c])
  }

  ghost predicate WorkingSignedIn(s: State) {
    forall r :: r in s.requests ==> SignedIn(s.signins, s.requests[r].blob)
  }

  ghost predicate MatchesRecorded(s: State) {
    forall r :: r in s.requests && s.requests[r].phase.Matched? ==>
      var p := s.requests[r].phase; Signin(p.id, p.hash, p.readAt, p.password) in s.signins
  }

  ghost predicate ReadAt(log: seq<Event>, user: UserId, hash: PasswordHash, at: nat) {
    at <= |log| && Current(log[..at], user) == Some(hash)
  }

  ghost predicate PhasesRead(s: State) {
    forall r :: r in s.requests && (s.requests[r].phase.Matching? || s.requests[r].phase.Matched?) ==>
      var p := s.requests[r].phase; ReadAt(s.accounts.log, p.id, p.hash, p.readAt)
  }

  ghost predicate HistoryRead(s: State) {
    && (forall g :: g in s.signins ==>
          ReadAt(s.accounts.log, g.user, g.hash, g.readAt) && g.hash.password == g.password)
    && (forall v :: v in s.served ==> ReadAt(s.accounts.log, v.user, v.hash, v.readAt))
  }

  predicate ServedBy(signins: set<Signin>, v: Serve) {
    && v.signin.Some? && v.signin.value in signins
    && v.signin.value.user == v.user && v.signin.value.hash == v.hash && v.signin.value.readAt <= v.readAt
  }

  ghost predicate ServedSignedIn(s: State) {
    forall v :: v in s.served ==> ServedBy(s.signins, v)
  }

  ghost predicate Inv(s: State) {
    && A.Inv(s.accounts)
    && StoredSignedIn(s) && WorkingSignedIn(s) && MatchesRecorded(s)
    && PhasesRead(s) && HistoryRead(s) && ServedSignedIn(s)
  }

  lemma SignedInGrows(signins: set<Signin>, signins': set<Signin>, b: Blob)
    requires signins <= signins' && SignedIn(signins, b)
    ensures SignedIn(signins', b)
  {
  }

  lemma StepKeepsStored(s: State, a: Action)
    requires StoredSignedIn(s) && WorkingSignedIn(s)
    ensures StoredSignedIn(Step(s, a))
  {
    var s' := Step(s, a);
    forall c | c in s'.sessions ensures SignedIn(s'.signins, s'.sessions[c]) {
      if c in s.sessions && s'.sessions[c] == s.sessions[c] {
        SignedInGrows(s.signins, s'.signins, s.sessions[c]);
      } else {
        assert a.Finish? && s'.sessions[c] == s.requests[a.r].blob;
      }
    }
  }

  // A working blob is one that was there, lost its user, or was stored or just
  // written, or is empty.
  lemma BlobComesFrom(s: State, a: Action, r: nat)
    requires r in Step(s, a).requests
    ensures s.signins <= Step(s, a).signins
    ensures var b := Step(s, a).requests[r].blob;
            || b.userId.None?
            || (r in s.requests && b == s.requests[r].blob)
            || (exists c :: c in s.sessions && b == s.sessions[c])
            || (r in s.requests && s.requests[r].phase.Matched? && b == WrittenBy(s.requests[r].phase))
  {
  }

  lemma StepKeepsWorking(s: State, a: Action)
    requires StoredSignedIn(s) && WorkingSignedIn(s) && MatchesRecorded(s)
    ensures WorkingSignedIn(Step(s, a))
  {
    var s' := Step(s, a);
    forall r | r in s'.requests ensures SignedIn(s'.signins, s'.requests[r].blob) {
      var b := s'.requests[r].blob;
      BlobComesFrom(s, a, r);
      if b.userId.None? {
      } else if r in s.requests && b == s.requests[r].blob {
        SignedInGrows(s.signins, s'.signins, b);
      } else if c :| c in s.sessions && b == s.sessions[c] {
        SignedInGrows(s.signins, s'.signins, b);
      }
    }
  }

  lemma StepKeepsMatches(s: State, a: Action)
    requires MatchesRecorded(s)
    ensures MatchesRecorded(Step(s, a))
  {
    assert s.signins <= Step(s, a).signins;
  }

  lemma ReadAtGrows(s: State, a: Action, user: UserId, hash: PasswordHash, at: nat)
    requires ReadAt(s.accounts.log, user, hash, at)
    ensures ReadAt(Step(s, a).accounts.log, user, hash, at)
  {
    assert Step(s, a).accounts.log[..at] == s.accounts.log[..at];
  }

  // A phase that holds a read is one that was there, or was read just now.
  lemma PhaseComesFrom(s: State, a: Action, r: nat)
    requires r in Step(s, a).requests
    requires Step(s, a).requests[r].phase.Matching? || Step(s, a).requests[r].phase.Matched?
    ensures var p := Step(s, a).requests[r].phase;
            if r in s.requests && (s.requests[r].phase.Matching? || s.requests[r].phase.Matched?) then
              var q := s.requests[r].phase; q.id == p.id && q.hash == p.hash && q.readAt == p.readAt
            else
              && Step(s, a).accounts == s.accounts && p.id in s.accounts.tables.users
              && p.hash == s.accounts.tables.users[p.id].hash && p.readAt == |s.accounts.log|
  {
  }

  lemma JustRead(s: A.State, user: UserId)
    requires Generations(s) && user in s.tables.users
    ensures ReadAt(s.log, user, s.tables.users[user].hash, |s.log|)
  {
    assert s.log[..|s.log|] == s.log;
  }

  lemma RequestKeepsPhaseRead(s: State, a: Action, r: nat)
    requires Generations(s.accounts) && PhasesRead(s)
    requires r in Step(s, a).requests
    requires Step(s, a).requests[r].phase.Matching? || Step(s, a).requests[r].phase.Matched?
    ensures var p := Step(s, a).requests[r].phase; ReadAt(Step(s, a).accounts.log, p.id, p.hash, p.readAt)
  {
    var p := Step(s, a).requests[r].phase;
    PhaseComesFrom(s, a, r);
    if r in s.requests && (s.requests[r].phase.Matching? || s.requests[r].phase.Matched?) {
      ReadAtGrows(s, a, p.id, p.hash, p.readAt);
    } else {
      JustRead(s.accounts, p.id);
    }
  }

  lemma StepKeepsPhasesRead(s: State, a: Action)
    requires Generations(s.accounts) && PhasesRead(s)
    ensures PhasesRead(Step(s, a))
  {
    var s' := Step(s, a);
    forall r | r in s'.requests && (s'.requests[r].phase.Matching? || s'.requests[r].phase.Matched?)
      ensures var p := s'.requests[r].phase; ReadAt(s'.accounts.log, p.id, p.hash, p.readAt)
    {
      RequestKeepsPhaseRead(s, a, r);
    }
  }

  lemma StepKeepsHistoryRead(s: State, a: Action)
    requires Generations(s.accounts) && PhasesRead(s) && HistoryRead(s)
    ensures HistoryRead(Step(s, a))
  {
    var s' := Step(s, a);
    assert s.accounts.log[..|s.accounts.log|] == s.accounts.log;
    forall g | g in s'.signins
      ensures ReadAt(s'.accounts.log, g.user, g.hash, g.readAt) && g.hash.password == g.password
    {
      if g in s.signins { ReadAtGrows(s, a, g.user, g.hash, g.readAt); }
    }
    forall v | v in s'.served ensures ReadAt(s'.accounts.log, v.user, v.hash, v.readAt) {
      if v in s.served { ReadAtGrows(s, a, v.user, v.hash, v.readAt); }
    }
  }

  lemma StepKeepsServed(s: State, a: Action)
    requires WorkingSignedIn(s) && HistoryRead(s) && ServedSignedIn(s)
    ensures ServedSignedIn(Step(s, a))
  {
    var s' := Step(s, a);
    assert s.signins <= s'.signins;
    forall v | v in s'.served && v !in s.served ensures ServedBy(s'.signins, v) {
      assert SignedIn(s.signins, s.requests[a.r].blob);
      assert ReadAt(s.accounts.log, v.signin.value.user, v.signin.value.hash, v.signin.value.readAt);
    }
  }

  lemma StepKeepsInv(s: State, a: Action)
    requires Inv(s)
    ensures Inv(Step(s, a))
  {
    if a.Account? {
      A.StepKeepsInv(s.accounts, a.step);
    }
    StepKeepsStored(s, a);
    StepKeepsWorking(s, a);
    StepKeepsMatches(s, a);
    StepKeepsPhasesRead(s, a);
    StepKeepsHistoryRead(s, a);
    StepKeepsServed(s, a);
  }

  lemma {:induction false} RunKeepsInv(s: State, actions: seq<Action>)
    requires Inv(s)
    ensures Inv(Run(s, actions))
    decreases |actions|
  {
    if actions != [] {
      StepKeepsInv(s, actions[0]);
      RunKeepsInv(Step(s, actions[0]), actions[1..]);
    }
  }

  // In every interleaving, a request is served as user only on a session whose
  // own sign-in compared a password against the very hash LoadUser then found,
  // with no password of that user set between the two reads.
  lemma ServedOnlyOnCurrentPassword(s: State, actions: seq<Action>, v: Serve)
    requires Start(s) && v in Run(s, actions).served
    ensures var r := Run(s, actions);
            && v.signin.Some? && v.signin.value in r.signins && v.hash.password == v.signin.value.password
            && v.signin.value.user == v.user && v.signin.value.hash == v.hash
            && v.signin.value.readAt <= v.readAt <= |r.accounts.log|
            && Current(r.accounts.log[..v.readAt], v.user) == Some(v.hash)
    ensures forall k :: v.signin.value.readAt <= k < v.readAt ==>
              !(SetsPassword(Run(s, actions).accounts.log[k]) && Run(s, actions).accounts.log[k].user == v.user)
  {
    RunKeepsInv(s, actions);
    var r := Run(s, actions);
    assert ServedBy(r.signins, v);
    var g := v.signin.value;
    assert ReadAt(r.accounts.log, g.user, g.hash, g.readAt);
    assert ReadAt(r.accounts.log, v.user, v.hash, v.readAt);
    SaltsMakeHashesDistinct(r.accounts);
    SameHashNoSetBetween(r.accounts.log, v.user, g.readAt, v.readAt);
  }

  predicate ResetOf(e: Event, user: UserId) {
    e.ResetCommitted? && e.user == user
  }

  // So once a reset commits, only sessions signed in on a later read are served.
  lemma ResetSignsOutEarlierSessions(s: State, actions: seq<Action>, v: Serve)
    requires Start(s) && v in Run(s, actions).served
    ensures v.signin.Some? && v.readAt <= |Run(s, actions).accounts.log|
    ensures forall k :: 0 <= k < v.readAt && ResetOf(Run(s, actions).accounts.log[k], v.user) ==>
              k < v.signin.value.readAt
  {
    ServedOnlyOnCurrentPassword(s, actions, v);
  }

  // No password of user was set from the point where the log had length from.
  ghost predicate NoneSetSince(log: seq<Event>, user: UserId, from: nat) {
    forall k :: from <= k < |log| ==> !(SetsPassword(log[k]) && log[k].user == user)
  }

  lemma {:induction false} NoneSetSameHash(log: seq<Event>, user: UserId, from: nat)
    requires from <= |log| && NoneSetSince(log, user, from) && Current(log, user).Some?
    ensures Current(log[..from], user) == Current(log, user)
  {
    if from == |log| {
      assert log[..from] == log;
    } else {
      var init, e := log[..|log| - 1], log[|log| - 1];
      assert init[..from] == log[..from] && !(SetsPassword(e) && e.user == user);
      NoneSetSameHash(init, user, from);
    }
  }

  lemma CurrentAtExactly(s: State, g: Signin)
    requires Inv(s) && g in s.signins
    ensures Current(s.accounts.log, g.user) == Some(g.hash) <==>
            Current(s.accounts.log, g.user).Some? && NoneSetSince(s.accounts.log, g.user, g.readAt)
  {
    var log := s.accounts.log;
    assert ReadAt(log, g.user, g.hash, g.readAt) && log[..|log|] == log;
    if Current(log, g.user) == Some(g.hash) {
      SaltsMakeHashesDistinct(s.accounts);
      SameHashNoSetBetween(log, g.user, g.readAt, |log|);
    } else if Current(log, g.user).Some? && NoneSetSince(log, g.user, g.readAt) {
      NoneSetSameHash(log, g.user, g.readAt);
    }
  }

  // What LoadUser compares: an empty half or a vanished user attaches nobody.
  lemma LoadUserCompares(s: State, r: nat)
    requires r in s.requests && s.requests[r].phase.Loaded?
    ensures var t, b := Step(s, LoadUser(r)), s.requests[r].blob;
            && r in t.requests
            && t.requests[r].phase ==
               if b.userId.Some? && b.userId.value in s.accounts.tables.users &&
                  b.epoch == Some(PasswordEpoch(s.accounts.tables.users[b.userId.value].hash))
               then Serving(b.userId) else Serving(None)
  {
  }

  // The user of a session is there, and none of its passwords was set since the
  // read of the session's sign-in.
  ghost predicate StillSignedIn(s: State, g: Signin) {
    g.user in s.accounts.tables.users && NoneSetSince(s.accounts.log, g.user, g.readAt)
  }

  lemma StillSignedInExactly(s: State, b: Blob)
    requires Inv(s) && SignedIn(s.signins, b) && b.userId.Some? && b.epoch.Some?
    ensures StillSignedIn(s, b.signin.value) <==>
            b.userId.value in s.accounts.tables.users &&
            b.epoch == Some(PasswordEpoch(s.accounts.tables.users[b.userId.value].hash))
  {
    CurrentAtExactly(s, b.signin.value);
  }

  // A blob with both halves whose sign-in holds.
  ghost predicate Attaches(s: State, b: Blob) {
    b.userId.Some? && b.epoch.Some? && b.signin.Some? && StillSignedIn(s, b.signin.value)
  }

  // After any run, LoadUser attaches the user of a session exactly when that
  // session has both halves and is still signed in so; else it attaches nobody.
  lemma LoadUserExactly(s: State, actions: seq<Action>, r: nat)
    requires Start(s) && r in Run(s, actions).requests && Run(s, actions).requests[r].phase.Loaded?
    ensures r in Step(Run(s, actions), LoadUser(r)).requests
    ensures var m, b := Run(s, actions), Run(s, actions).requests[r].blob;
            Step(m, LoadUser(r)).requests[r].phase ==
              if Attaches(m, b) then Serving(Some(b.signin.value.user)) else Serving(None)
  {
    RunKeepsInv(s, actions);
    LoadsExactly(Run(s, actions), r);
  }

  lemma LoadsExactly(m: State, r: nat)
    requires Inv(m) && r in m.requests && m.requests[r].phase.Loaded?
    ensures var b, t := m.requests[r].blob, Step(m, LoadUser(r));
            && r in t.requests
            && t.requests[r].phase == if Attaches(m, b) then Serving(Some(b.signin.value.user)) else Serving(None)
  {
    var b := m.requests[r].blob;
    LoadUserCompares(m, r);
    if b.userId.Some? && b.epoch.Some? {
      assert SignedIn(m.signins, b);
      StillSignedInExactly(m, b);
    }
  }

  // A request without a stored session is served as nobody.
  lemma StrangersAreNobody(s: State, r: nat, cookie: Option<nat>)
    requires r !in s.requests && (cookie.None? || cookie.value !in s.sessions)
    ensures var t := Step(Step(s, Arrive(r, cookie)), LoadUser(r));
            r in t.requests && t.requests[r].phase == Serving(None) && t.sessions == s.sessions
  {
  }

  // ---- What serving as a user means --------------------------------------------------

  lemma {:induction false} RunJoins(s: State, a: seq<Action>, b: seq<Action>)
    ensures Run(s, a + b) == Run(Run(s, a), b)
    decreases |a|
  {
    if a == [] {
      assert a + b == b;
    } else {
      RunJoins(Step(s, a[0]), a[1..], b);
      assert (a + b)[0] == a[0] && (a + b)[1..] == a[1..] + b;
    }
  }

  lemma RunLast(s: State, actions: seq<Action>)
    requires actions != []
    ensures Run(s, actions) == Step(Run(s, actions[..|actions| - 1]), actions[|actions| - 1])
  {
    var init, last := actions[..|actions| - 1], actions[|actions| - 1];
    RunJoins(s, init, [last]);
    assert actions == init + [last];
    assert [last][1..] == [];
  }

  predicate ServesSomebody(s: State, r: nat) {
    r in s.requests && s.requests[r].phase.Serving? && s.requests[r].phase.user.Some?
  }

  // Only LoadUser attaches anybody; no other step touches a request being served.
  lemma ServingComesFrom(s: State, a: Action, r: nat)
    requires ServesSomebody(Step(s, a), r)
    ensures || (r in s.requests && s.requests[r] == Step(s, a).requests[r])
            || (a == LoadUser(r) && r in s.requests && s.requests[r].phase.Loaded?
                && s.requests[r].blob == Step(s, a).requests[r].blob)
  {
  }

  // The i-th action was LoadUser on the session the request has, which had both
  // halves, of a sign-in that held then; the request is served as its user.
  ghost predicate AttachedAt(s: State, actions: seq<Action>, r: nat, i: nat) {
    var end := Run(s, actions);
    && i < |actions| && actions[i] == LoadUser(r) && r in end.requests
    && var m := Run(s, actions[..i]);
    && r in m.requests && m.requests[r].phase.Loaded? && m.requests[r].blob == end.requests[r].blob
    && Attaches(m, m.requests[r].blob) && m.requests[r].blob.signin.value in m.signins
    && end.requests[r].phase == Serving(Some(m.requests[r].blob.signin.value.user))
  }

  lemma JustAttached(s: State, init: seq<Action>, r: nat)
    requires Start(s) && r in Run(s, init).requests && Run(s, init).requests[r].phase.Loaded?
    requires ServesSomebody(Step(Run(s, init), LoadUser(r)), r)
    requires Run(s, init).requests[r].blob == Step(Run(s, init), LoadUser(r)).requests[r].blob
    ensures AttachedAt(s, init + [LoadUser(r)], r, |init|)
  {
    var actions, m := init + [LoadUser(r)], Run(s, init);
    RunLast(s, actions);
    assert actions[..|init|] == init;
    RunKeepsInv(s, init);
    LoadsExactly(m, r);
    assert SignedIn(m.signins, m.requests[r].blob);
  }

  lemma StillAttached(s: State, init: seq<Action>, a: Action, r: nat, i: nat)
    requires AttachedAt(s, init, r, i)
    requires r in Run(s, init + [a]).requests && Run(s, init + [a]).requests[r] == Run(s, init).requests[r]
    ensures AttachedAt(s, init + [a], r, i)
  {
    assert (init + [a])[..i] == init[..i];
  }

  // After any run, a request stands as served as a user only because LoadUser
  // attached that user to it on its own session, which held then.
  lemma {:induction false} ServingMeansAttached(s: State, actions: seq<Action>, r: nat) returns (i: nat)
    requires Start(s) && ServesSomebody(Run(s, actions), r)
    ensures AttachedAt(s, actions, r, i)
    decreases |actions|
  {
    assert actions != [];
    var init, a := actions[..|actions| - 1], actions[|actions| - 1];
    assert actions == init + [a];
    RunLast(s, actions);
    ServingComesFrom(Run(s, init), a, r);
    if r in Run(s, init).requests && Run(s, init).requests[r] == Run(s, actions).requests[r] {
      i := ServingMeansAttached(s, init, r);
      StillAttached(s, init, a, r, i);
    } else {
      i := |init|;
      JustAttached(s, init, r);
    }
  }

  // ---- Signing in and out, left alone --------------------------------------------------

  // The compare accepts exactly the password the hash was made from.
  lemma CompareExactly(s: State, r: nat, password: string)
    requires r in s.requests && s.requests[r].phase.Matching?
    ensures var p, t := s.requests[r].phase, Step(s, Compare(r, password));
            && t.sessions == s.sessions && r in t.requests && t.requests[r].blob == s.requests[r].blob
            && t.requests[r].phase ==
               if password == p.hash.password then Matched(p.id, p.hash, p.readAt, password) else Serving(None)
  {
  }

  // A sign-in with the right password stores a session of a fresh identifier with
  // both halves, and the one it came with is gone.
  lemma SigninStoresSession(s: State, r: nat, id: UserId, password: string, fresh': nat, unused: nat)
    requires r in s.requests && s.requests[r].phase.Serving? && id in s.accounts.tables.users
    requires password == s.accounts.tables.users[id].hash.password
    requires fresh' !in s.sessions && unused !in s.sessions && unused != fresh'
    requires s.requests[r].cookie.Some? ==> s.requests[r].cookie.value in s.sessions
    ensures var hash := s.accounts.tables.users[id].hash;
            var matched := Step(Step(s, ReadUser(r, id)), Compare(r, password));
            var t := Step(Step(matched, PutUser(r, fresh')), Finish(r, unused));
            && t.accounts == s.accounts && t.requests == s.requests - {r}
            && t.sessions == Drop(s.sessions, s.requests[r].cookie)[fresh' :=
                 Blob(Some(id), Some(PasswordEpoch(hash)), Some(Signin(id, hash, |s.accounts.log|, password)))]
  {
    var hash := s.accounts.tables.users[id].hash;
    var s1 := Step(s, ReadUser(r, id));
    assert s1.requests[r].phase == Matching(id, hash, |s.accounts.log|);
    CompareExactly(s1, r, password);
    var s2 := Step(s1, Compare(r, password));
    var s3 := Step(s2, PutUser(r, fresh'));
    assert s3.requests == s.requests[r := Request(Some(fresh'), WrittenBy(s2.requests[r].phase), true, Serving(None))];
  }

  // Whoever comes with a stored session of the current password is served as its user.
  lemma StoredSessionIsServed(s: State, r: nat, cookie: nat)
    requires r !in s.requests && cookie in s.sessions && s.sessions[cookie].userId.Some?
    requires s.sessions[cookie].userId.value in s.accounts.tables.users
    requires var hash := s.accounts.tables.users[s.sessions[cookie].userId.value].hash;
             s.sessions[cookie].epoch == Some(PasswordEpoch(hash))
    ensures var t := Step(Step(s, Arrive(r, Some(cookie))), LoadUser(r));
            && r in t.requests && t.requests[r].phase == Serving(s.sessions[cookie].userId)
            && t.requests[r].blob == s.sessions[cookie] && t.sessions == s.sessions
            && t.requests[r].live && t.requests[r].cookie == Some(cookie)
  {
  }

  // Signing out, and LoadUser on a session whose epoch is not the current one,
  // destroy the session; ending the request does not bring it back.
  lemma DestroyedIsGone(s: State, r: nat, a: Action, unused: nat)
    requires r in s.requests && s.requests[r].cookie.Some? && unused !in s.sessions
    requires || (a == Signout(r) && s.requests[r].phase.Serving?)
             || (a == LoadUser(r) && s.requests[r].phase.Loaded? && s.requests[r].blob.userId.Some?
                 && s.requests[r].blob.userId.value in s.accounts.tables.users
                 && var hash := s.accounts.tables.users[s.requests[r].blob.userId.value].hash;
                    s.requests[r].blob.epoch != Some(PasswordEpoch(hash)))
    ensures var t := Step(Step(s, a), Finish(r, unused));
            t.sessions == s.sessions - {s.requests[r].cookie.value} && t.requests == s.requests - {r}
  {
  }

  // A request that breaks off stores nothing; any account statement may run
  // between two of a request's steps.
  lemma OthersGoOn(s: State, r: nat, step: A.Action)
    ensures Step(s, Crash(r)) == s.(requests := s.requests - {r})
    ensures Step(s, Account(step)) == s.(accounts := A.Step(s.accounts, step))
  {
  }

  // LoadUser on a session whose user has vanished takes the user out of it, and
  // ending the request stores it so.
  lemma VanishedUserIsRemoved(s: State, r: nat, unused: nat)
    requires r in s.requests && s.requests[r].phase.Loaded? && s.requests[r].live && unused !in s.sessions
    requires s.requests[r].cookie.Some? && s.requests[r].blob.userId.Some?
    requires s.requests[r].blob.userId.value !in s.accounts.tables.users
    ensures var q := s.requests[r];
            var t := Step(Step(s, LoadUser(r)), Finish(r, unused));
            t.sessions == s.sessions[q.cookie.value := q.blob.(userId := None)] && t.requests == s.requests - {r}
  {
  }

  lemma SaltsMakeHashesDistinct(s: A.State)
    requires LogSaltsFresh(s)
    ensures forall m, n :: 0 <= m < n < |s.log| && SetsPassword(s.log[m]) && SetsPassword(s.log[n]) ==>
              s.log[m].hash != s.log[n].hash
  {
  }
}
