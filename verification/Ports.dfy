// The worktree port registry (bin/port-allocate, bin/port-deallocate) as one
// process at a time sees it.
module Ports {
  import opened Sets
  import opened Wrappers

  datatype Row = Row(port: int, workdir: string, branch: string)

  // The pool: its first port and its positive step.
  datatype Pool = Pool(start: int, step: int)

  function PortOf(rows: seq<Row>, workdir: string): Option<int> {
    if rows == [] then None
    else if rows[0].workdir == workdir then Some(rows[0].port)
    else PortOf(rows[1..], workdir)
  }

  // awk '$2 != wd'
  function Released(rows: seq<Row>, workdir: string): seq<Row> {
    if rows == [] then []
    else if rows[0].workdir == workdir then Released(rows[1..], workdir)
    else [rows[0]] + Released(rows[1..], workdir)
  }

  function Used(rows: seq<Row>): set<int> {
    set i | 0 <= i < |rows| :: rows[i].port
  }

  function Slot(pool: Pool, n: nat): int {
    pool.start + n * pool.step
  }

  lemma SlotsAscend(pool: Pool, m: nat, n: nat)
    requires 0 < pool.step && m < n
    ensures Slot(pool, m) + pool.step <= Slot(pool, n)
  {
    assert (n - m) * pool.step >= pool.step by { Product(n - m, pool.step); }
    assert n * pool.step == m * pool.step + (n - m) * pool.step;
  }

  lemma Product(k: int, step: int)
    requires k >= 1 && step > 0
    ensures k * step >= step
  {
  }

  // The used ports a search that has reached slot n may still hit.
  function Ahead(used: set<int>, pool: Pool, n: nat): set<int> {
    set p | p in used && p >= Slot(pool, n)
  }

  lemma AheadShrinks(used: set<int>, pool: Pool, n: nat)
    requires Slot(pool, n) in used && 0 < pool.step
    ensures |Ahead(used, pool, n + 1)| < |Ahead(used, pool, n)|
  {
    SlotsAscend(pool, n, n + 1);
    SubsetIsSmaller(Ahead(used, pool, n + 1), Ahead(used, pool, n) - {Slot(pool, n)});
  }

  lemma {:induction false} UsedIsSmall(rows: seq<Row>)
    ensures |Used(rows)| <= |rows|
  {
    if rows == [] {
      assert Used(rows) == {};
    } else {
      UsedIsSmall(rows[1..]);
      assert Used(rows) == {rows[0].port} + Used(rows[1..]);
    }
  }

  function FreeSlot(used: set<int>, pool: Pool, n: nat): (free: nat)
    requires 0 < pool.step
    ensures free >= n && Slot(pool, free) !in used
    ensures forall k {:trigger Slot(pool, k)} :: n <= k < free ==> Slot(pool, k) in used
    decreases |Ahead(used, pool, n)|
  {
    if Slot(pool, n) !in used then n else
      AheadShrinks(used, pool, n);
      FreeSlot(used, pool, n + 1)
  }

  function FreePort(rows: seq<Row>, pool: Pool): int
    requires 0 < pool.step
  {
    Slot(pool, FreeSlot(Used(rows), pool, 0))
  }

  // The registry every sequence of allocations and releases keeps.
  ghost predicate WellFormed(rows: seq<Row>, pool: Pool) {
    && (forall i, j :: 0 <= i < j < |rows| ==> rows[i].port != rows[j].port)
    && (forall i, j :: 0 <= i < j < |rows| ==> rows[i].workdir != rows[j].workdir)
    && (forall i :: 0 <= i < |rows| ==> IsSlot(rows[i].port, pool))
  }

  ghost predicate IsSlot(port: int, pool: Pool) {
    exists n {:trigger Slot(pool, n)} :: 0 <= n && Slot(pool, n) == port
  }

  lemma {:induction false} PortOfFinds(rows: seq<Row>, workdir: string)
    ensures PortOf(rows, workdir).None? <==> forall i :: 0 <= i < |rows| ==> rows[i].workdir != workdir
    ensures PortOf(rows, workdir).Some? ==>
              exists i :: 0 <= i < |rows| && rows[i].workdir == workdir && rows[i].port == PortOf(rows, workdir).value
  {
    if rows != [] && rows[0].workdir != workdir {
      PortOfFinds(rows[1..], workdir);
      assert forall i :: 0 < i < |rows| ==> rows[i] == rows[1..][i - 1];
      if PortOf(rows, workdir).Some? {
        var i :| 0 <= i < |rows[1..]| && rows[1..][i].workdir == workdir
                 && rows[1..][i].port == PortOf(rows, workdir).value;
        assert rows[i + 1] == rows[1..][i];
      }
    }
  }

  lemma {:induction false} ReleasedKeeps(rows: seq<Row>, workdir: string, r: Row)
    ensures r in Released(rows, workdir) <==> r in rows && r.workdir != workdir
  {
    if rows != [] {
      ReleasedKeeps(rows[1..], workdir, r);
    }
  }

  // Releasing keeps the others where they were.
  lemma {:induction false} ReleasedAppends(a: seq<Row>, b: seq<Row>, workdir: string)
    ensures Released(a + b, workdir) == Released(a, workdir) + Released(b, workdir)
  {
    if a == [] {
      assert a + b == b;
    } else {
      assert (a + b)[1..] == a[1..] + b;
      ReleasedAppends(a[1..], b, workdir);
    }
  }

  // A row with a port and a worktree of its own.
  predicate IsApart(r: Row, rows: seq<Row>) {
    forall x :: x in rows ==> x.port != r.port && x.workdir != r.workdir
  }

  lemma WellFormedTail(rows: seq<Row>, pool: Pool)
    requires rows != [] && WellFormed(rows, pool)
    ensures WellFormed(rows[1..], pool) && IsSlot(rows[0].port, pool) && IsApart(rows[0], rows[1..])
  {
    var rest := rows[1..];
    assert forall i :: 0 <= i < |rest| ==> rest[i] == rows[i + 1];
    forall x | x in rest ensures x.port != rows[0].port && x.workdir != rows[0].workdir {
      var i :| 0 <= i < |rest| && rest[i] == x;
      assert rows[i + 1] == x;
    }
  }

  lemma WellFormedPrepend(r: Row, rows: seq<Row>, pool: Pool)
    requires WellFormed(rows, pool) && IsSlot(r.port, pool) && IsApart(r, rows)
    ensures WellFormed([r] + rows, pool)
  {
    var all := [r] + rows;
    assert forall i :: 0 < i < |all| ==> all[i] == rows[i - 1] && all[i] in rows;
  }

  lemma {:induction false} ReleaseKeepsWellFormed(rows: seq<Row>, workdir: string, pool: Pool)
    requires WellFormed(rows, pool)
    ensures WellFormed(Released(rows, workdir), pool)
  {
    if rows != [] {
      var kept := Released(rows[1..], workdir);
      WellFormedTail(rows, pool);
      ReleaseKeepsWellFormed(rows[1..], workdir, pool);
      if rows[0].workdir != workdir {
        forall x | x in kept ensures x.port != rows[0].port && x.workdir != rows[0].workdir {
          ReleasedKeeps(rows[1..], workdir, x);
        }
        WellFormedPrepend(rows[0], kept, pool);
      }
    }
  }

  lemma AllocateKeepsWellFormed(rows: seq<Row>, workdir: string, branch: string, pool: Pool)
    requires WellFormed(rows, pool) && 0 < pool.step && PortOf(rows, workdir).None?
    ensures WellFormed(rows + [Row(FreePort(rows, pool), workdir, branch)], pool)
  {
    var rows' := rows + [Row(FreePort(rows, pool), workdir, branch)];
    PortOfFinds(rows, workdir);
    forall i | 0 <= i < |rows| ensures rows[i].port != FreePort(rows, pool) {
      assert rows[i].port in Used(rows);
    }
    assert forall i :: 0 <= i < |rows| ==> rows'[i] == rows[i];
  }

  // Blocks of step consecutive ports belong to one worktree each.
  lemma BlocksAreDisjoint(rows: seq<Row>, pool: Pool, i: nat, j: nat, port: int)
    requires WellFormed(rows, pool) && 0 < pool.step
    requires i < |rows| && j < |rows|
    requires rows[i].port <= port < rows[i].port + pool.step
    requires rows[j].port <= port < rows[j].port + pool.step
    ensures i == j
  {
    assert IsSlot(rows[i].port, pool) && IsSlot(rows[j].port, pool);
    var m :| 0 <= m && Slot(pool, m) == rows[i].port;
    var n :| 0 <= n && Slot(pool, n) == rows[j].port;
    if m < n { SlotsAscend(pool, m, n); }
    if n < m { SlotsAscend(pool, n, m); }
  }

  // Some row has the k-th port from the pool's start.
  predicate Taken(rows: seq<Row>, pool: Pool, k: nat) {
    exists i :: 0 <= i < |rows| && rows[i].port == pool.start + k * pool.step
  }

  // The k-th port from the pool's start, untaken and with none before it so.
  ghost predicate IsFirstFree(rows: seq<Row>, pool: Pool, port: int) {
    exists k: nat :: !Taken(rows, pool, k) && port == pool.start + k * pool.step
                     && forall j: nat :: j < k ==> Taken(rows, pool, j)
  }

  lemma TakenExactly(rows: seq<Row>, pool: Pool, k: nat)
    ensures Taken(rows, pool, k) <==> Slot(pool, k) in Used(rows)
  {
    assert Slot(pool, k) == pool.start + k * pool.step;
  }

  lemma FreePortIsFirst(rows: seq<Row>, pool: Pool)
    requires 0 < pool.step
    ensures IsFirstFree(rows, pool, FreePort(rows, pool))
    ensures rows == [] ==> FreePort(rows, pool) == pool.start
  {
    var k := FreeSlot(Used(rows), pool, 0);
    TakenExactly(rows, pool, k);
    forall j: nat | j < k ensures Taken(rows, pool, j) {
      TakenExactly(rows, pool, j);
      assert Slot(pool, j) in Used(rows);
    }
    if rows == [] {
      assert !Taken(rows, pool, 0);
    }
  }

  // Only one port is the first free one, so that is what the search finds. In an
  // empty registry it is the start of the pool.
  lemma FreePortIsLeast(rows: seq<Row>, pool: Pool, port: int)
    requires 0 < pool.step
    ensures port == FreePort(rows, pool) <==> IsFirstFree(rows, pool, port)
    ensures rows == [] ==> FreePort(rows, pool) == pool.start
  {
    FreePortIsFirst(rows, pool);
    if IsFirstFree(rows, pool, port) {
      var k: nat :| !Taken(rows, pool, k) && port == pool.start + k * pool.step
                    && forall j: nat :: j < k ==> Taken(rows, pool, j);
      var m: nat :| !Taken(rows, pool, m) && FreePort(rows, pool) == pool.start + m * pool.step
                    && forall j: nat :: j < m ==> Taken(rows, pool, j);
      assert k == m;
    }
  }

  // The search loop of bin/port-allocate; probes counts the ports it tries.
  method SearchFreePort(rows: seq<Row>, pool: Pool) returns (port: int, probes: nat)
    requires 0 < pool.step
    ensures port == FreePort(rows, pool) && IsFirstFree(rows, pool, port)
    ensures probes <= |rows| + 1
  {
    FreePortIsFirst(rows, pool);
    var used := Used(rows);
    ghost var n: nat := 0;
    port := pool.start;
    probes := 1;
    UsedIsSmall(rows);
    SubsetIsSmaller(Ahead(used, pool, 0), used);
    while port in used
      invariant port == Slot(pool, n)
      invariant FreeSlot(used, pool, 0) == FreeSlot(used, pool, n)
      invariant probes + |Ahead(used, pool, n)| <= |rows| + 1
      decreases |Ahead(used, pool, n)|
    {
      AheadShrinks(used, pool, n);
      port := port + pool.step;
      n := n + 1;
      probes := probes + 1;
    }
  }

  class Registry {
    var rows: seq<Row>

    constructor ()
      ensures rows == []
    {
      rows := [];
    }

    // One bin/port-allocate between its lock and its release.
    method Allocate(workdir: string, branch: string, pool: Pool) returns (port: int)
      requires 0 < pool.step && WellFormed(rows, pool)
      modifies this
      ensures WellFormed(rows, pool)
      ensures PortOf(rows, workdir) == Some(port)
      ensures old(PortOf(rows, workdir)).Some? ==> rows == old(rows) && port == old(PortOf(rows, workdir)).value
      ensures old(PortOf(rows, workdir)).None? ==>
                rows == old(rows) + [Row(port, workdir, branch)] && IsFirstFree(old(rows), pool, port)
      ensures old(rows) == [] ==> port == pool.start
    {
      var existing := PortOf(rows, workdir);
      if existing.Some? {
        return existing.value;
      }
      var probes;
      port, probes := SearchFreePort(rows, pool);
      FreePortIsLeast(rows, pool, port);
      AllocateKeepsWellFormed(rows, workdir, branch, pool);
      AppendedIsFound(rows, Row(port, workdir, branch));
      rows := rows + [Row(port, workdir, branch)];
    }

    // One bin/port-deallocate between its lock and its release.
    method Deallocate(workdir: string, pool: Pool)
      requires WellFormed(rows, pool)
      modifies this
      ensures WellFormed(rows, pool)
      ensures PortOf(rows, workdir) == None
      ensures forall r :: r in rows <==> r in old(rows) && r.workdir != workdir
      ensures rows == Released(old(rows), workdir)
    {
      ReleaseKeepsWellFormed(rows, workdir, pool);
      forall r: Row ensures r in Released(rows, workdir) <==> r in rows && r.workdir != workdir {
        ReleasedKeeps(rows, workdir, r);
      }
      rows := Released(rows, workdir);
      PortOfFinds(rows, workdir);
    }
  }

  lemma {:induction false} AppendedIsFound(rows: seq<Row>, r: Row)
    requires PortOf(rows, r.workdir).None?
    ensures PortOf(rows + [r], r.workdir) == Some(r.port)
  {
    if rows != [] {
      AppendedIsFound(rows[1..], r);
      assert (rows + [r])[1..] == rows[1..] + [r];
    }
  }
}
