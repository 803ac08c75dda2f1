// The sign-in throttle (web/throttle.go): a sliding-window count over a table
// that every recording sweeps. A statement is one SQL statement, atomic, at the
// database clock's reading; times are microseconds.
module Throttle {

  const LIMIT: nat := 5
  const WINDOW: int := 900_000_000

  datatype Attempt = Attempt(key: string, at: int)

  datatype Statement =
    | Sweep(now: int)
    | Record(key: string, now: int)
    | Clear(key: string, now: int)

  // SELECT count(*) ... WHERE key = $1 AND attempted_at > cutoff
  function Count(rows: seq<Attempt>, key: string, cutoff: int): nat {
    if rows == [] then 0 else
      var a := rows[|rows| - 1];
      Count(rows[..|rows| - 1], key, cutoff) + if a.key == key && a.at > cutoff then 1 else 0
  }

  // DELETE ... WHERE attempted_at < cutoff
  function Prune(rows: seq<Attempt>, cutoff: int): seq<Attempt> {
    if rows == [] then [] else
      var a := rows[|rows| - 1];
      var kept := Prune(rows[..|rows| - 1], cutoff);
      if a.at < cutoff then kept else kept + [a]
  }

  // DELETE ... WHERE key = $1
  function Without(rows: seq<Attempt>, key: string): seq<Attempt> {
    if rows == [] then [] else
      var a := rows[|rows| - 1];
      var kept := Without(rows[..|rows| - 1], key);
      if a.key == key then kept else kept + [a]
  }

  function Apply(rows: seq<Attempt>, s: Statement): seq<Attempt> {
    match s
    case Sweep(now) => Prune(rows, now - WINDOW)
    case Record(key, now) => rows + [Attempt(key, now)]
    case Clear(key, _) => Without(rows, key)
  }

  // The table the statements of log leave behind, swept rows and all.
  function Table(log: seq<Statement>): seq<Attempt> {
    if log == [] then [] else Apply(Table(log[..|log| - 1]), log[|log| - 1])
  }

  predicate Blocked(rows: seq<Attempt>, key: string, now: int) {
    Count(rows, key, now - WINDOW) >= LIMIT
  }

  // The reference the table is measured against: every attempt ever recorded
  // for key since key was last cleared, with no sweeping at all.
  function SinceReset(log: seq<Statement>, key: string): seq<Attempt> {
    if log == [] then [] else Remember(SinceReset(log[..|log| - 1], key), log[|log| - 1], key)
  }

  function Remember(attempts: seq<Attempt>, s: Statement, key: string): seq<Attempt> {
    match s
    case Sweep(_) => attempts
    case Record(k, now) => if k == key then attempts + [Attempt(key, now)] else attempts
    case Clear(k, _) => if k == key then [] else attempts
  }

  // What one more statement does to the table and to every key's reference.
  lemma Append(log: seq<Statement>, s: Statement)
    ensures Table(log + [s]) == Apply(Table(log), s)
    ensures forall key :: SinceReset(log + [s], key) == Remember(SinceReset(log, key), s, key)
  {
    assert (log + [s])[..|log|] == log;
  }

  // The database clock never goes backwards.
  ghost predicate Timed(log: seq<Statement>, now: int) {
    && (forall i :: 0 <= i < |log| ==> log[i].now <= now)
    && (forall i, j :: 0 <= i < j < |log| ==> log[i].now <= log[j].now)
  }

  lemma AppendFailure(log: seq<Statement>, sweptAt: int, recordedAt: int, key: string)
    ensures var log' := log + [Sweep(sweptAt), Record(key, recordedAt)];
            && Table(log') == Prune(Table(log), sweptAt - WINDOW) + [Attempt(key, recordedAt)]
            && SinceReset(log', key) == SinceReset(log, key) + [Attempt(key, recordedAt)]
            && forall k :: k != key ==> SinceReset(log', k) == SinceReset(log, k)
  {
    var swept := log + [Sweep(sweptAt)];
    Append(log, Sweep(sweptAt));
    Append(swept, Record(key, recordedAt));
    assert log + [Sweep(sweptAt), Record(key, recordedAt)] == swept + [Record(key, recordedAt)];
  }

  lemma {:induction false} CountPrune(rows: seq<Attempt>, key: string, swept: int, cutoff: int)
    requires swept <= cutoff
    ensures Count(Prune(rows, swept), key, cutoff) == Count(rows, key, cutoff)
  {
    if rows != [] {
      var init := rows[..|rows| - 1];
      CountPrune(init, key, swept, cutoff);
      var a := rows[|rows| - 1];
      if a.at >= swept {
        assert (Prune(init, swept) + [a])[..|Prune(init, swept)|] == Prune(init, swept);
      }
    }
  }

  lemma {:induction false} CountWithout(rows: seq<Attempt>, cleared: string, key: string, cutoff: int)
    ensures Count(Without(rows, cleared), key, cutoff) == if cleared == key then 0 else Count(rows, key, cutoff)
  {
    if rows != [] {
      var init := rows[..|rows| - 1];
      CountWithout(init, cleared, key, cutoff);
      var a := rows[|rows| - 1];
      if a.key != cleared {
        assert (Without(init, cleared) + [a])[..|Without(init, cleared)|] == Without(init, cleared);
      }
    }
  }

  // One statement moves the swept table and the unswept reference alike, for
  // every cutoff no older than the statement's own window.
  lemma ApplyCount(rows: seq<Attempt>, s: Statement, key: string, cutoff: int)
    requires s.now - WINDOW <= cutoff
    ensures Count(Apply(rows, s), key, cutoff) ==
            match s
            case Sweep(_) => Count(rows, key, cutoff)
            case Record(k, now) => Count(rows, key, cutoff) + if k == key && now > cutoff then 1 else 0
            case Clear(k, _) => if k == key then 0 else Count(rows, key, cutoff)
  {
    match s
    case Sweep(now) => CountPrune(rows, key, now - WINDOW, cutoff);
    case Record(k, now) => assert (rows + [Attempt(k, now)])[..|rows|] == rows;
    case Clear(k, _) => CountWithout(rows, k, key, cutoff);
  }

  lemma {:induction false} TableCountsLog(log: seq<Statement>, key: string, cutoff: int)
    requires forall i :: 0 <= i < |log| ==> log[i].now - WINDOW <= cutoff
    ensures Count(Table(log), key, cutoff) == Count(SinceReset(log, key), key, cutoff)
  {
    if log != [] {
      var init, s := log[..|log| - 1], log[|log| - 1];
      TableCountsLog(init, key, cutoff);
      ApplyCount(Table(init), s, key, cutoff);
      if s.Record? && s.key == key {
        var before := SinceReset(init, key);
        assert (before + [Attempt(key, s.now)])[..|before|] == before;
      }
    }
  }

  // Sweeping is invisible: the verdict read from the table is the verdict of
  // the unpruned history since the key's last reset.
  lemma PrunedTableRefinesLog(log: seq<Statement>, key: string, now: int)
    requires Timed(log, now)
    ensures Blocked(Table(log), key, now) <==>
              Count(SinceReset(log, key), key, now - 15 * 60 * 1_000_000) >= 5
  {
    TableCountsLog(log, key, now - WINDOW);
  }

  // No statement on another key, and no sweep, moves this key's verdict.
  lemma OtherKeysDoNotMatter(rows: seq<Attempt>, s: Statement, key: string, now: int)
    requires s.now <= now
    requires s.Sweep? || s.key != key
    ensures Blocked(Apply(rows, s), key, now) <==> Blocked(rows, key, now)
  {
    ApplyCount(rows, s, key, now - WINDOW);
  }

  lemma {:induction false} NothingNewer(rows: seq<Attempt>, key: string, cutoff: int)
    requires forall i :: 0 <= i < |rows| ==> rows[i].at <= cutoff
    ensures Count(rows, key, cutoff) == 0
  {
    if rows != [] {
      NothingNewer(rows[..|rows| - 1], key, cutoff);
    }
  }

  lemma {:induction false} SinceResetBounded(log: seq<Statement>, key: string, last: int)
    requires forall i :: 0 <= i < |log| && log[i].Record? && log[i].key == key ==> log[i].now <= last
    ensures forall i :: 0 <= i < |SinceReset(log, key)| ==> SinceReset(log, key)[i].at <= last
  {
    if log != [] {
      SinceResetBounded(log[..|log| - 1], key, last);
    }
  }

  // A key is free again one window after its last recorded attempt, whatever
  // else was recorded, swept or refused in between.
  lemma BlockedKeyFreesItself(log: seq<Statement>, key: string, last: int, now: int)
    requires Timed(log, now)
    requires forall i :: 0 <= i < |log| && log[i].Record? && log[i].key == key ==> log[i].now <= last
    requires last + 15 * 60 * 1_000_000 <= now
    ensures !Blocked(Table(log), key, now)
  {
    PrunedTableRefinesLog(log, key, now);
    SinceResetBounded(log, key, last);
    NothingNewer(SinceReset(log, key), key, now - WINDOW);
  }

  // throttle_attempts as the three functions update it in place; log is the
  // full history the contracts are stated against.
  class AttemptTable {
    var rows: seq<Attempt>
    ghost var log: seq<Statement>

    ghost predicate Valid(now: int)
      reads this
    {
      rows == Table(log) && Timed(log, now)
    }

    constructor ()
      ensures log == [] && forall now :: Valid(now)
    {
      rows := [];
      log := [];
    }

    method ThrottleBlockedTx(now: int, key: string) returns (blocked: bool)
      requires Valid(now)
      ensures blocked <==> Count(SinceReset(log, key), key, now - WINDOW) >= LIMIT
    {
      blocked := Count(rows, key, now - WINDOW) >= LIMIT;
      PrunedTableRefinesLog(log, key, now);
    }

    // Two statements on the pool, so two clock readings.
    method ThrottleFailTx(sweptAt: int, recordedAt: int, key: string)
      requires Valid(sweptAt) && sweptAt <= recordedAt
      modifies this
      ensures Valid(recordedAt)
      ensures log == old(log) + [Sweep(sweptAt), Record(key, recordedAt)]
      ensures SinceReset(log, key) == old(SinceReset(log, key)) + [Attempt(key, recordedAt)]
      ensures forall k :: k != key ==> SinceReset(log, k) == old(SinceReset(log, k))
    {
      AppendFailure(log, sweptAt, recordedAt, key);
      rows := Prune(rows, sweptAt - WINDOW);
      rows := rows + [Attempt(key, recordedAt)];
      log := log + [Sweep(sweptAt), Record(key, recordedAt)];
    }

    method ThrottleResetTx(now: int, key: string)
      requires Valid(now)
      modifies this
      ensures Valid(now)
      ensures log == old(log) + [Clear(key, now)]
      ensures SinceReset(log, key) == []
      ensures forall k :: k != key ==> SinceReset(log, k) == old(SinceReset(log, k))
    {
      Append(log, Clear(key, now));
      rows := Without(rows, key);
      log := log + [Clear(key, now)];
    }
  }
}
