/** The per-thread connection and statement cache of lib/dbapi.c. Whatever the driver answers, no call
    is made on a freed handle, no handle is leaked, an error on one database leaves the others' handles
    alone, a lost connection is dropped, and no query leaves a cursor open or a buffer bound. */
module OdbcSession {
  import opened OdbcDriver

  const MAX_DB: nat := 4

  /** Which handle the diagnostics of a failed call are read from. */
  datatype Source = Environment | Connection(h: Handle) | Statement(h: Handle)

  datatype FetchKind = NativeJson | RowArray | MultipleArrays

  ghost predicate Cached(slots: array<Handle>, h: Handle)
    reads slots
  {
    exists i :: 0 <= i < slots.Length && slots[i] == h
  }

  predicate ReportsLoss(records: seq<Diagnostic>) {
    exists i :: 0 <= i < |records| && records[i].disconnect
  }

  /** The code of the last record of at least 50000, or the earlier one if there is none. */
  ghost predicate IsLastNative(records: seq<Diagnostic>, before: int, code: int) {
    || (code == before && forall i :: 0 <= i < |records| ==> records[i].nativeError < 50000)
    || (exists i :: 0 <= i < |records| && records[i].nativeError == code >= 50000 &&
          forall j :: i < j < |records| ==> records[j].nativeError < 50000)
  }

  predicate AllTrue(flags: seq<bool>) {
    forall i :: 0 <= i < |flags| ==> flags[i]
  }

  lemma OnlyLive(open: Open, h: Handle, live: set<Handle>)
    requires open.Only(h) && open.cursors <= live && open.params <= live && open.columns <= live
    requires h !in live || (h !in open.cursors && h !in open.params && h !in open.columns)
    ensures open == NOTHING_OPEN
  {
    assert open.cursors == {} && open.params == {} && open.columns == {};
  }

  class Session {
    const driver: Driver
    const hdbc: array<Handle>
    const hstmt: array<Handle>
    var destructorArmed: bool    // the thread-exit hook runs only once this was set
    var lastNative: int          // the last application error, or 0
    ghost var lost: bool         // a diagnosis of the current query reported a lost connection

    ghost const Repr: set<object>

    /** The cache and the driver agree: what is cached is alive, what is alive is cached under one id,
        a cached statement belongs to the cached connection of the same id. */
    ghost predicate Valid()
      reads this, Repr
    {
      && Repr == {this, driver, hdbc, hstmt} && hdbc != hstmt
      && driver.Valid()
      && hdbc.Length == MAX_DB && hstmt.Length == MAX_DB
      && (forall i :: 0 <= i < MAX_DB && hdbc[i] != NULL_HANDLE ==> hdbc[i] in driver.conns)
      && (forall i :: 0 <= i < MAX_DB && hstmt[i] != NULL_HANDLE ==>
            hdbc[i] != NULL_HANDLE && hstmt[i] in driver.stmts && driver.stmts[hstmt[i]] == hdbc[i])
      && (forall i, j :: 0 <= i < j < MAX_DB && hdbc[i] != NULL_HANDLE ==> hdbc[i] != hdbc[j])
      && (forall h :: h in driver.conns ==> Cached(hdbc, h))
      && (forall h :: h in driver.stmts ==> Cached(hstmt, h))
    }

    constructor (driver: Driver)
      requires driver.Valid() && driver.conns == {} && driver.stmts == map[]
      ensures Valid() && Armed() && AtRest() && this.driver == driver && fresh(Repr - {driver})
    {
      this.driver := driver;
      var conns, stmts := new Handle[MAX_DB](_ => NULL_HANDLE), new Handle[MAX_DB](_ => NULL_HANDLE);
      hdbc, hstmt := conns, stmts;
      destructorArmed, lastNative, lost := false, 0, false;
      Repr := {this, driver, conns, stmts};
    }

    /** A cached connection will be closed when the thread ends. */
    ghost predicate Armed()
      requires Valid()
      reads this, Repr
    {
      forall i :: 0 <= i < MAX_DB && hdbc[i] != NULL_HANDLE ==> destructorArmed
    }

    /** No cursor is open and nothing is bound on any statement of this thread. */
    ghost predicate AtRest()
      reads this, driver
    {
      driver.open == NOTHING_OPEN
    }

    ghost predicate IsReset(id: nat)
      requires Valid() && id < MAX_DB
      reads this, Repr
    {
      hdbc[id] == NULL_HANDLE && hstmt[id] == NULL_HANDLE
    }

    /** `h` is the cached, live statement of database `id`. */
    ghost predicate Current(id: nat, h: Handle)
      requires Valid() && id < MAX_DB
      reads this, Repr
    {
      h != NULL_HANDLE && hstmt[id] == h
    }

    /** The handles of every other database are untouched. */
    twostate predicate OthersKept(id: nat)
      requires old(Valid()) && Valid()
      reads this, Repr
    {
      forall i :: 0 <= i < MAX_DB && i != id ==> hdbc[i] == old(hdbc[i]) && hstmt[i] == old(hstmt[i])
    }

    method DropStatement(id: nat)
      requires Valid() && id < MAX_DB
      modifies driver`stmts, driver`open, hstmt
      ensures Valid() && hstmt[id] == NULL_HANDLE && OthersKept(id) && driver.open.Within(old(driver.open))
    {
      if hstmt[id] != NULL_HANDLE {
        driver.FreeStatement(hstmt[id]);
        ghost var freed := hstmt[id];
        hstmt[id] := NULL_HANDLE;
        forall h | h in driver.stmts ensures Cached(hstmt, h) {
          var i :| 0 <= i < MAX_DB && old(hstmt[i]) == h;
          assert h != freed && hstmt[i] == h;
        }
      }
    }

    method DropConnection(id: nat)
      requires Valid() && id < MAX_DB && hstmt[id] == NULL_HANDLE
      modifies driver`conns, hdbc
      ensures Valid() && hdbc[id] == NULL_HANDLE && OthersKept(id)
    {
      if hdbc[id] != NULL_HANDLE {
        driver.TuneConnection(hdbc[id]);
        forall h | h in driver.stmts ensures driver.stmts[h] != hdbc[id] {
          var i :| 0 <= i < MAX_DB && hstmt[i] == h;
          assert driver.stmts[h] == hdbc[i] && i != id;
        }
        driver.FreeConnection(hdbc[id]);
        ghost var freed := hdbc[id];
        hdbc[id] := NULL_HANDLE;
        forall h | h in driver.conns ensures Cached(hdbc, h) {
          var i :| 0 <= i < MAX_DB && old(hdbc[i]) == h;
          assert h != freed && hdbc[i] == h;
        }
      }
    }

    /** `db_reset_connection`: the statement goes before the connection it belongs to. */
    method Reset(id: int)
      requires Valid()
      modifies driver`conns, driver`stmts, driver`open, hdbc, hstmt
      ensures Valid() && driver.open.Within(old(driver.open))
      ensures 0 <= id < MAX_DB ==> IsReset(id) && OthersKept(id)
      ensures !(0 <= id < MAX_DB) ==> forall i :: 0 <= i < MAX_DB ==> hdbc[i] == old(hdbc[i]) && hstmt[i] == old(hstmt[i])
    {
      if id < 0 || id >= MAX_DB {
        return;
      }
      DropStatement(id);
      DropConnection(id);
    }

    /** `db_set_error`: reads all diagnostics of a live handle. The connection is dropped exactly when one of
        them says it is lost, so the handle may be dead afterwards; the last application error among them
        is remembered. */
    method SetError(id: int, source: Source) returns (ghost records: seq<Diagnostic>)
      requires Valid() && 0 <= id < MAX_DB
      requires source.Connection? ==> source.h in driver.conns
      requires source.Statement? ==> source.h in driver.stmts
      modifies this`lost, this`lastNative, driver`conns, driver`stmts, driver`open, hdbc, hstmt
      ensures Valid() && OthersKept(id) && driver.open.Within(old(driver.open))
      ensures lost <==> old(lost) || ReportsLoss(records)
      ensures ReportsLoss(records) ==> IsReset(id)
      ensures !ReportsLoss(records) ==>
        hdbc[id] == old(hdbc[id]) && hstmt[id] == old(hstmt[id]) && driver.open == old(driver.open)
      ensures IsLastNative(records, old(lastNative), lastNative)
    {
      var found: seq<Diagnostic>;
      match source {
        case Environment => found := driver.DiagnoseEnvironment();
        case Connection(h) => found := driver.DiagnoseConnection(h);
        case Statement(h) => found := driver.DiagnoseStatement(h);
      }
      records := found;
      var isDisconnect := Scan(found);
      lost := lost || isDisconnect;
      if |found| > 0 && isDisconnect {
        Reset(id);
      }
    }

    /** The loop over the diagnostic records. */
    method Scan(found: seq<Diagnostic>) returns (isDisconnect: bool)
      modifies this`lastNative
      ensures isDisconnect <==> ReportsLoss(found)
      ensures IsLastNative(found, old(lastNative), lastNative)
    {
      isDisconnect := false;
      for i := 0 to |found|
        invariant isDisconnect <==> ReportsLoss(found[..i])
        invariant IsLastNative(found[..i], old(lastNative), lastNative)
      {
        if found[i].nativeError >= 50000 {
          lastNative := found[i].nativeError;
        }
        if found[i].disconnect {
          isDisconnect := true;
        }
        assert found[..i + 1] == found[..i] + [found[i]];
      }
      assert found[..|found|] == found;
    }

    method OpenConnection(id: nat) returns (ok: bool)
      requires Valid() && id < MAX_DB && hdbc[id] == NULL_HANDLE
      modifies driver`conns, driver`next, driver`seen, hdbc
      ensures Valid() && OthersKept(id) && hstmt[id] == NULL_HANDLE
      ensures ok <==> hdbc[id] != NULL_HANDLE
      ensures driver.seen == old(driver.seen).Judge(ok)
    {
      var conn;
      ok, conn := driver.AllocConnection();
      hdbc[id] := conn;
      forall h | h in driver.conns ensures Cached(hdbc, h) {
        if h == conn {
          assert hdbc[id] == h;
        } else {
          var i :| 0 <= i < MAX_DB && old(hdbc[i]) == h;
          assert hdbc[i] == h;
        }
      }
    }

    /** `db_connect`: a result is the cached connection; there is none exactly when the database is unknown
        or not configured, or a call failed, and then nothing stays cached. */
    method Connect(id: int, configured: bool) returns (h: Handle)
      requires Valid() && Armed() && !driver.seen.trouble && !lost
      modifies this`destructorArmed, this`lost, this`lastNative
      modifies driver`conns, driver`stmts, driver`next, driver`open, driver`seen, hdbc, hstmt
      ensures Valid() && Armed() && driver.open.Within(old(driver.open))
      ensures h != NULL_HANDLE ==> 0 <= id < MAX_DB && hdbc[id] == h && !lost
      ensures 0 <= id < MAX_DB && h == NULL_HANDLE ==> IsReset(id)
      ensures 0 <= id < MAX_DB ==> OthersKept(id)
      ensures driver.seen == old(driver.seen).Judge(!driver.seen.trouble)
      ensures h != NULL_HANDLE <==> 0 <= id < MAX_DB && (old(hdbc[id]) != NULL_HANDLE || configured) && !driver.seen.trouble
    {
      if id < 0 || id >= MAX_DB {
        return NULL_HANDLE;
      }
      if hdbc[id] != NULL_HANDLE {
        return hdbc[id];
      }
      if !configured {
        return NULL_HANDLE;
      }
      var ok := OpenConnection(id);
      if !ok {
        ghost var records := SetError(id, Environment);
        return NULL_HANDLE;
      }
      driver.TuneConnection(hdbc[id]);
      driver.TuneConnection(hdbc[id]);
      ok := driver.Connect(hdbc[id]);
      if !ok {
        ghost var records := SetError(id, Connection(hdbc[id]));
        Reset(id);
        return NULL_HANDLE;
      }
      destructorArmed := true;
      h := hdbc[id];
    }

    /** `db_alloc_stmt` on the cached connection: a result is the cached statement; when none can be had the
        connection is dropped. */
    method AllocStatement(id: int, conn: Handle) returns (h: Handle)
      requires Valid() && Armed() && !driver.seen.trouble && !lost
      requires 0 <= id < MAX_DB ==> conn != NULL_HANDLE && hdbc[id] == conn
      modifies this`lost, this`lastNative
      modifies driver`conns, driver`stmts, driver`next, driver`open, driver`seen, hdbc, hstmt
      ensures Valid() && Armed() && driver.open.Within(old(driver.open))
      ensures h != NULL_HANDLE ==> 0 <= id < MAX_DB && Current(id, h) && !lost
      ensures 0 <= id < MAX_DB && h == NULL_HANDLE ==> IsReset(id)
      ensures 0 <= id < MAX_DB ==> OthersKept(id)
      ensures driver.seen == old(driver.seen).Judge(!driver.seen.trouble)
      ensures h != NULL_HANDLE <==> 0 <= id < MAX_DB && !driver.seen.trouble
    {
      if id < 0 || id >= MAX_DB {
        return NULL_HANDLE;
      }
      if hstmt[id] != NULL_HANDLE {
        return hstmt[id];
      }
      var ok := OpenStatement(id, conn);
      if !ok {
        ghost var records := SetError(id, Connection(conn));
        Reset(id);
        return NULL_HANDLE;
      }
      h := hstmt[id];
    }

    /** Allocates a statement, sets its attributes and caches it. */
    method OpenStatement(id: nat, conn: Handle) returns (ok: bool)
      requires Valid() && id < MAX_DB && conn != NULL_HANDLE && hdbc[id] == conn && hstmt[id] == NULL_HANDLE
      modifies driver`stmts, driver`next, driver`seen, hstmt
      ensures Valid() && OthersKept(id)
      ensures ok <==> hstmt[id] != NULL_HANDLE
      ensures driver.seen == old(driver.seen).Judge(ok)
    {
      var stmt;
      ok, stmt := driver.AllocStatement(conn);
      if !ok {
        return;
      }
      driver.TuneStatement(stmt);
      hstmt[id] := stmt;
      forall h | h in driver.stmts ensures Cached(hstmt, h) {
        if h == stmt {
          assert hstmt[id] == h;
        } else {
          var i :| 0 <= i < MAX_DB && old(hstmt[i]) == h;
          assert hstmt[i] == h;
        }
      }
    }

    /** `db_is_valid_stmt`. */
    method IsValidStatement(h: Handle) returns (valid: bool)
      requires Valid()
      ensures valid <==> h != NULL_HANDLE && h in driver.stmts
    {
      if h == NULL_HANDLE {
        return false;
      }
      for i := 0 to MAX_DB
        invariant forall j :: 0 <= j < i ==> hstmt[j] != h
      {
        if hstmt[i] == h {
          return true;
        }
      }
      valid := false;
    }

    /** `db_cleanup_stmt`, the scope guard of every query: safe on a handle that a reset freed, and on a live
        one it closes the cursor and unbinds everything. */
    method Cleanup(h: Handle)
      requires Valid() && driver.open.Only(h)
      modifies driver`open
      ensures Valid() && AtRest()
    {
      var valid := IsValidStatement(h);
      if valid {
        driver.CloseCursor(h);
        driver.ResetParameters(h);
        driver.UnbindColumns(h);
      }
      OnlyLive(driver.open, h, driver.stmts.Keys);
    }

    /** `metadata_destroy`, the scope guard of a result set: its buffers are freed only after a live
        statement has forgotten them. */
    method DestroyMetadata(h: Handle)
      requires Valid()
      modifies driver`open
      ensures Valid() && driver.open == old(driver.open).(columns := old(driver.open).columns - {h})
    {
      var valid := IsValidStatement(h);
      if valid {
        driver.UnbindColumns(h);
      }
      assert !valid ==> h !in old(driver.open).columns;
    }

    /** `db_prepare_and_bind`; `supported[i]` tells whether parameter i has a known type. It succeeds exactly
        when the database is known and configured, all types are known and no call failed. On success
        the statement is the cached one; on failure it may be a handle that is already dead. */
    method PrepareAndBind(id: int, configured: bool, supported: seq<bool>) returns (ok: bool, h: Handle)
      requires Valid() && Armed() && AtRest() && !driver.seen.trouble && !lost
      modifies this`destructorArmed, this`lost, this`lastNative
      modifies driver`conns, driver`stmts, driver`next, driver`open, driver`seen, driver`binds, hdbc, hstmt
      ensures Valid() && Armed()
      ensures ok ==> 0 <= id < MAX_DB && Current(id, h) && !lost
      ensures 0 <= id < MAX_DB && lost ==> IsReset(id)
      ensures 0 <= id < MAX_DB ==> OthersKept(id)
      ensures driver.open.Only(h) && driver.open.cursors == {} && driver.open.columns == {}
      ensures driver.seen == old(driver.seen).Judge(!driver.seen.trouble)
      ensures ok <==> Reachable(id, configured) && AllTrue(supported) && !driver.seen.trouble
      ensures ok ==> driver.binds == old(driver.binds) + |supported|
    {
      ok, h := false, NULL_HANDLE;
      var conn := Connect(id, configured);
      if conn == NULL_HANDLE {
        return;
      }
      h := AllocStatement(id, conn);
      if h == NULL_HANDLE {
        return;
      }
      ok := BindParameters(id, h, supported);
    }

    /** The database exists and has a cached connection or a connection string. */
    twostate predicate Reachable(id: int, configured: bool)
      requires old(Valid())
      reads this, Repr
    {
      0 <= id < MAX_DB && (old(hdbc[id]) != NULL_HANDLE || configured)
    }

    method BindParameters(id: int, h: Handle, supported: seq<bool>) returns (ok: bool)
      requires Valid() && Armed() && 0 <= id < MAX_DB && Current(id, h) && AtRest() && !driver.seen.trouble && !lost
      modifies this`lost, this`lastNative, driver`conns, driver`stmts, driver`open, driver`seen, driver`binds, hdbc, hstmt
      ensures Valid() && Armed() && OthersKept(id)
      ensures ok ==> Current(id, h) && !lost
      ensures lost ==> IsReset(id)
      ensures driver.open.Only(h) && driver.open.cursors == {} && driver.open.columns == {}
      ensures driver.seen == old(driver.seen).Judge(!driver.seen.trouble)
      ensures ok <==> AllTrue(supported) && !driver.seen.trouble
      ensures ok ==> driver.binds == old(driver.binds) + |supported|
    {
      for i := 0 to |supported|
        invariant Valid() && Armed() && Current(id, h) && OthersKept(id) && !lost && driver.binds == old(driver.binds) + i
        invariant driver.open.Only(h) && driver.open.cursors == {} && driver.open.columns == {}
        invariant driver.seen == old(driver.seen) && AllTrue(supported[..i])
      {
        ok := BindOne(id, h, supported[i], false);
        if !ok {
          return;
        }
      }
      assert supported[..|supported|] == supported;
      ok := true;
    }

    /** Binds one parameter or one column, unless its type is not known. */
    method BindOne(id: int, h: Handle, supported: bool, column: bool) returns (ok: bool)
      requires Valid() && Armed() && 0 <= id < MAX_DB && Current(id, h) && !driver.seen.trouble && !lost && driver.open.Only(h)
      modifies this`lost, this`lastNative, driver`conns, driver`stmts, driver`open, driver`seen, driver`binds, hdbc, hstmt
      ensures Valid() && Armed() && OthersKept(id)
      ensures ok ==> Current(id, h) && !lost && driver.open.cursors == old(driver.open.cursors)
      ensures lost ==> IsReset(id)
      ensures driver.open.Only(h) && driver.open.cursors <= old(driver.open.cursors)
      ensures !column ==> driver.open.columns <= old(driver.open.columns)
      ensures driver.seen == old(driver.seen).Judge(!driver.seen.trouble)
      ensures ok <==> supported && !driver.seen.trouble
      ensures ok ==> driver.binds == old(driver.binds) + 1
    {
      var r := Error;
      if supported {
        if column {
          r := driver.BindColumn(h);
        } else {
          r := driver.BindParameter(h);
        }
      }
      if !Succeeded(r) {
        ghost var records := SetError(id, Statement(h));
        return false;
      }
      ok := true;
    }

    /** `odbc_bind_resultset_metadata`: column count, one description and one binding per column. It succeeds
        exactly when no call failed and memory was available; `meta` is what the scope guard gets. */
    method BindResultSet(id: int, h: Handle) returns (ok: bool, cols: nat, meta: Handle)
      requires Valid() && Armed() && 0 <= id < MAX_DB && Current(id, h) && !driver.seen.trouble && !lost
      requires driver.open.Only(h) && driver.open.columns == {}
      modifies this`lost, this`lastNative, driver`conns, driver`stmts, driver`open, driver`seen, driver`done, driver`binds, hdbc, hstmt
      ensures Valid() && Armed() && OthersKept(id)
      ensures ok ==> Current(id, h) && !lost && driver.open.cursors == old(driver.open.cursors)
      ensures lost ==> IsReset(id)
      ensures driver.open.Only(h) && (driver.open.columns == {} || meta == h)
      ensures driver.seen == old(driver.seen).Judge(!driver.seen.trouble)
      ensures ok <==> !driver.seen.trouble
      ensures ok ==> driver.binds == old(driver.binds) + cols && driver.done == old(driver.done).(owed := cols > 0)
    {
      ok, meta := false, NULL_HANDLE;
      var r;
      r, cols := driver.CountColumns(h);
      if !Succeeded(r) {
        ghost var records := SetError(id, Statement(h));
        return;
      }
      if cols == 0 {
        return true, 0, NULL_HANDLE;
      }
      meta := h;
      ok := SetUpColumns(id, h, cols);
    }

    /** `alloc_metadata_cols` and the binding loop. */
    method SetUpColumns(id: int, h: Handle, cols: nat) returns (ok: bool)
      requires Valid() && Armed() && 0 <= id < MAX_DB && Current(id, h) && !driver.seen.trouble && !lost && driver.open.Only(h)
      modifies this`lost, this`lastNative, driver`conns, driver`stmts, driver`open, driver`seen, driver`binds, hdbc, hstmt
      ensures Valid() && Armed() && OthersKept(id)
      ensures ok ==> Current(id, h) && !lost && driver.open.cursors == old(driver.open.cursors)
      ensures lost ==> IsReset(id)
      ensures driver.open.Only(h)
      ensures driver.seen == old(driver.seen).Judge(!driver.seen.trouble)
      ensures ok <==> !driver.seen.trouble
      ensures ok ==> driver.binds == old(driver.binds) + cols
    {
      ok := DescribeColumns(id, h, cols);
      if ok {
        ok := ReserveAndBind(id, h, cols);
      }
    }

    method ReserveAndBind(id: int, h: Handle, cols: nat) returns (ok: bool)
      requires Valid() && Armed() && 0 <= id < MAX_DB && Current(id, h) && !driver.seen.trouble && !lost && driver.open.Only(h)
      modifies this`lost, this`lastNative, driver`conns, driver`stmts, driver`open, driver`seen, driver`binds, hdbc, hstmt
      ensures Valid() && Armed() && OthersKept(id)
      ensures ok ==> Current(id, h) && !lost && driver.open.cursors == old(driver.open.cursors)
      ensures lost ==> IsReset(id)
      ensures driver.open.Only(h)
      ensures driver.seen == old(driver.seen).Judge(!driver.seen.trouble)
      ensures ok <==> !driver.seen.trouble
      ensures ok ==> driver.binds == old(driver.binds) + cols
    {
      ok := driver.Reserve();
      if ok {
        ok := BindColumns(id, h, cols);
      }
    }

    method DescribeColumns(id: int, h: Handle, cols: nat) returns (ok: bool)
      requires Valid() && Armed() && 0 <= id < MAX_DB && Current(id, h) && !driver.seen.trouble && !lost
      modifies this`lost, this`lastNative, driver`conns, driver`stmts, driver`open, driver`seen, hdbc, hstmt
      ensures Valid() && Armed() && OthersKept(id) && driver.open.Within(old(driver.open))
      ensures ok ==> Current(id, h) && !lost && driver.open == old(driver.open)
      ensures lost ==> IsReset(id)
      ensures driver.seen == old(driver.seen).Judge(!driver.seen.trouble)
      ensures ok <==> !driver.seen.trouble
    {
      for i := 0 to cols
        invariant Valid() && Armed() && Current(id, h) && OthersKept(id) && !lost
        invariant driver.open == old(driver.open) && driver.seen == old(driver.seen)
      {
        var r, sizeFits := driver.DescribeColumn(h);
        if !Succeeded(r) || !sizeFits {
          ghost var records := SetError(id, Statement(h));
          return false;
        }
      }
      ok := true;
    }

    method BindColumns(id: int, h: Handle, cols: nat) returns (ok: bool)
      requires Valid() && Armed() && 0 <= id < MAX_DB && Current(id, h) && !driver.seen.trouble && !lost && driver.open.Only(h)
      modifies this`lost, this`lastNative, driver`conns, driver`stmts, driver`open, driver`seen, driver`binds, hdbc, hstmt
      ensures Valid() && Armed() && OthersKept(id)
      ensures ok ==> Current(id, h) && !lost && driver.open.cursors == old(driver.open.cursors)
      ensures lost ==> IsReset(id)
      ensures driver.open.Only(h)
      ensures driver.seen == old(driver.seen).Judge(!driver.seen.trouble)
      ensures ok <==> !driver.seen.trouble
      ensures ok ==> driver.binds == old(driver.binds) + cols
    {
      for i := 0 to cols
        invariant Valid() && Armed() && Current(id, h) && OthersKept(id) && !lost && driver.binds == old(driver.binds) + i
        invariant driver.open.Only(h) && driver.open.cursors == old(driver.open.cursors) && driver.seen == old(driver.seen)
      {
        ok := BindOne(id, h, true, true);
        if !ok {
          return;
        }
      }
      ok := true;
    }

    /** Whether a query with this handle may fetch: its cursor is open and no column buffer is bound. */
    ghost predicate Fetching(id: nat, h: Handle)
      requires Valid() && id < MAX_DB
      reads this, Repr
    {
      Current(id, h) && driver.open.Only(h) && driver.open.cursors == {h} && driver.open.columns == {}
    }

    /** `fetch_resultset_array`, with its scope guard. It succeeds exactly when no call failed, and never
        leaves a freed buffer bound. */
    method FetchRows(id: int, h: Handle, brackets: bool) returns (ok: bool)
      requires Valid() && Armed() && 0 <= id < MAX_DB && Fetching(id, h) && !driver.seen.trouble && !lost
      modifies this`lost, this`lastNative, driver, hdbc, hstmt
      ensures Valid() && Armed() && OthersKept(id)
      ensures ok ==> Fetching(id, h) && !lost
      ensures lost ==> IsReset(id)
      ensures driver.open.Only(h) && driver.open.columns == {}
      ensures ok <==> !driver.seen.trouble
      ensures driver.seen.noData == old(driver.seen.noData)
      ensures ok ==> driver.resultsLeft == old(driver.resultsLeft)
      ensures ok && !brackets ==> driver.done.rows
      ensures ok ==> !driver.done.owed
    {
      var bound, cols, meta := BindResultSet(id, h);
      if !bound {
        DestroyMetadata(meta);
        return false;
      }
      if brackets && cols == 0 {
        DestroyMetadata(meta);
        return true;
      }
      ok := FetchLoop(id, h);
      DestroyMetadata(meta);
    }

    method FetchLoop(id: int, h: Handle) returns (ok: bool)
      requires Valid() && Armed() && 0 <= id < MAX_DB && Current(id, h) && !driver.seen.trouble && !lost
      requires driver.open.Only(h) && driver.open.cursors == {h}
      modifies this`lost, this`lastNative
      modifies driver`conns, driver`stmts, driver`open, driver`seen, driver`done, driver`rowsLeft, driver`chunksLeft, hdbc, hstmt
      ensures Valid() && Armed() && OthersKept(id)
      ensures ok ==> Current(id, h) && !lost && driver.open == old(driver.open)
      ensures lost ==> IsReset(id)
      ensures driver.open.Within(old(driver.open))
      ensures ok <==> !driver.seen.trouble
      ensures driver.seen.noData == old(driver.seen.noData)
      ensures ok ==> driver.done.rows
      ensures ok ==> !driver.done.owed
      ensures driver.done.values == old(driver.done.values)
    {
      while true
        invariant Valid() && Armed() && Current(id, h) && OthersKept(id) && !lost && driver.open == old(driver.open)
        invariant !driver.seen.trouble && driver.seen.noData == old(driver.seen.noData)
        invariant driver.done.values == old(driver.done.values)
        decreases driver.rowsLeft
      {
        var r := driver.Fetch(h);
        if r.NoData? {
          return true;
        }
        if !Succeeded(r) {
          ghost var records := SetError(id, Statement(h));
          return false;
        }
      }
    }

    /** `db_fetch_jsonm_native`: one pass per result set. It succeeds exactly when no call failed. */
    method FetchMany(id: int, h: Handle) returns (ok: bool)
      requires Valid() && Armed() && 0 <= id < MAX_DB && Fetching(id, h) && !driver.seen.trouble && !lost
      modifies this`lost, this`lastNative, driver, hdbc, hstmt
      ensures Valid() && Armed() && OthersKept(id)
      ensures ok ==> Fetching(id, h) && !lost
      ensures lost ==> IsReset(id)
      ensures driver.open.Only(h) && driver.open.columns == {}
      ensures ok <==> !driver.seen.trouble
      ensures driver.seen.noData == old(driver.seen.noData)
      ensures ok ==> driver.done.results
    {
      var columns := driver.PeekColumns(h);
      while true
        invariant Valid() && Armed() && OthersKept(id) && Fetching(id, h) && !lost
        invariant !driver.seen.trouble && driver.seen.noData == old(driver.seen.noData)
        invariant driver.done.owed <==> columns > 0
        decreases driver.resultsLeft
      {
        var more;
        ok, more, columns := ReadResult(id, h, columns);
        if !more {
          return;
        }
      }
    }

    /** One pass of the loop: the rows of a result with columns, then the next result and its columns. */
    method ReadResult(id: int, h: Handle, columns: nat) returns (ok: bool, more: bool, next: nat)
      requires Valid() && Armed() && 0 <= id < MAX_DB && Fetching(id, h) && !driver.seen.trouble && !lost
      requires driver.done.owed <==> columns > 0
      modifies this`lost, this`lastNative, driver, hdbc, hstmt
      ensures Valid() && Armed() && OthersKept(id)
      ensures ok ==> Fetching(id, h) && !lost
      ensures lost ==> IsReset(id)
      ensures driver.open.Only(h) && driver.open.columns == {}
      ensures ok <==> !driver.seen.trouble
      ensures driver.seen.noData == old(driver.seen.noData)
      ensures more ==> ok && driver.resultsLeft < old(driver.resultsLeft)
      ensures ok ==> driver.done.results == !more
      ensures more ==> (driver.done.owed <==> next > 0)
    {
      next := 0;
      if columns > 0 {
        ok := FetchRows(id, h, false);
        if !ok {
          return false, false, 0;
        }
      }
      ok, more := NextResult(id, h);
      if more {
        next := driver.PeekColumns(h);
      }
    }

    /** SQLMoreResults and what follows from its answer. */
    method NextResult(id: int, h: Handle) returns (ok: bool, more: bool)
      requires Valid() && Armed() && 0 <= id < MAX_DB && Fetching(id, h) && !driver.seen.trouble && !lost
      requires !driver.done.owed
      modifies this`lost, this`lastNative
      modifies driver`conns, driver`stmts, driver`open, driver`seen, driver`done, driver`rowsLeft, driver`resultsLeft, hdbc, hstmt
      ensures Valid() && Armed() && OthersKept(id)
      ensures ok ==> Fetching(id, h) && !lost
      ensures lost ==> IsReset(id)
      ensures driver.open.Only(h) && driver.open.columns == {}
      ensures ok <==> !driver.seen.trouble
      ensures driver.seen.noData == old(driver.seen.noData)
      ensures more ==> ok && driver.resultsLeft < old(driver.resultsLeft)
      ensures ok ==> driver.done.results == !more
    {
      var r := driver.MoreResults(h);
      if r.NoData? {
        return true, false;
      }
      if !Succeeded(r) {
        ghost var records := SetError(id, Statement(h));
        return false, false;
      }
      ok, more := true, true;
    }

    /** `db_fetch_json_native`: one column per row. It succeeds exactly when no call failed. */
    method FetchNative(id: int, h: Handle) returns (ok: bool)
      requires Valid() && Armed() && 0 <= id < MAX_DB && Fetching(id, h) && !driver.seen.trouble && !lost
      modifies this`lost, this`lastNative, driver, hdbc, hstmt
      ensures Valid() && Armed() && OthersKept(id)
      ensures ok ==> Fetching(id, h) && !lost
      ensures lost ==> IsReset(id)
      ensures driver.open.Only(h) && driver.open.columns == {}
      ensures ok <==> !driver.seen.trouble
      ensures driver.seen.noData == old(driver.seen.noData)
      ensures ok ==> driver.done.rows
      ensures ok ==> driver.done.values - old(driver.done.values) == driver.seen.rows - old(driver.seen.rows)
    {
      while true
        invariant Valid() && Armed() && Fetching(id, h) && OthersKept(id) && !lost
        invariant !driver.seen.trouble && driver.seen.noData == old(driver.seen.noData)
        invariant driver.done.values - old(driver.done.values) == driver.seen.rows - old(driver.seen.rows)
        decreases driver.rowsLeft
      {
        var more;
        ok, more := ReadRow(id, h);
        if !more {
          return;
        }
      }
    }

    /** One row: fetched, and its column read in chunks. */
    method ReadRow(id: int, h: Handle) returns (ok: bool, more: bool)
      requires Valid() && Armed() && 0 <= id < MAX_DB && Fetching(id, h) && !driver.seen.trouble && !lost
      modifies this`lost, this`lastNative
      modifies driver`conns, driver`stmts, driver`open, driver`seen, driver`done, driver`rowsLeft, driver`chunksLeft, hdbc, hstmt
      ensures Valid() && Armed() && OthersKept(id)
      ensures ok ==> Fetching(id, h) && !lost
      ensures lost ==> IsReset(id)
      ensures driver.open.Only(h) && driver.open.columns == {}
      ensures ok <==> !driver.seen.trouble
      ensures driver.seen.noData == old(driver.seen.noData)
      ensures more ==> ok && driver.rowsLeft < old(driver.rowsLeft)
      ensures ok ==> driver.done.values - old(driver.done.values) == driver.seen.rows - old(driver.seen.rows)
      ensures ok && !more ==> driver.done.rows
    {
      var r := driver.Fetch(h);
      if r.NoData? {
        return true, false;
      }
      if !Succeeded(r) {
        ghost var records := SetError(id, Statement(h));
        return false, false;
      }
      ok := ReadChunks(id, h);
      more := ok;
    }

    /** `fetch_json_native_col_loop`. */
    method ReadChunks(id: int, h: Handle) returns (ok: bool)
      requires Valid() && Armed() && 0 <= id < MAX_DB && Fetching(id, h) && !driver.seen.trouble && !lost
      modifies this`lost, this`lastNative
      modifies driver`conns, driver`stmts, driver`open, driver`seen, driver`done, driver`chunksLeft, hdbc, hstmt
      ensures Valid() && Armed() && OthersKept(id)
      ensures ok ==> Fetching(id, h) && !lost
      ensures lost ==> IsReset(id)
      ensures driver.open.Only(h) && driver.open.columns == {}
      ensures ok <==> !driver.seen.trouble
      ensures driver.seen.noData == old(driver.seen.noData)
      ensures ok ==> driver.done.values == old(driver.done.values) + 1
      ensures driver.seen.rows == old(driver.seen.rows)
    {
      var again := true;
      while again
        invariant Valid() && Armed() && Fetching(id, h) && OthersKept(id) && !lost
        invariant !driver.seen.trouble && driver.seen.noData == old(driver.seen.noData) && driver.seen.rows == old(driver.seen.rows)
        invariant driver.done.values == old(driver.done.values) + if again then 0 else 1
        decreases again, driver.chunksLeft
      {
        var r, isNull := driver.GetData(h);
        if !Succeeded(r) && !r.NoData? {
          ghost var records := SetError(id, Statement(h));
          return false;
        }
        again := r.SuccessWithInfo? && !isNull;
      }
      ok := true;
    }

    /** `db_execute_and_fetch` behind db_get_json, db_get_rs2json and db_get_rs2json_m. For every sequence of
        driver answers all calls are made on live handles. It succeeds exactly when the database can be
        reached, all parameter types are known and no call failed. When a diagnosis reports a lost
        connection, nothing of that database stays cached. No cursor stays open and nothing bound. */
    method ExecuteAndFetch(id: int, configured: bool, supported: seq<bool>, kind: FetchKind) returns (ok: bool)
      requires Valid() && Armed() && AtRest() && !driver.seen.trouble && !driver.seen.noData && !lost
      modifies this`destructorArmed, this`lost, this`lastNative, driver, hdbc, hstmt
      ensures Valid() && Armed() && AtRest()
      ensures 0 <= id < MAX_DB ==> OthersKept(id)
      ensures ok <==> Reachable(id, configured) && AllTrue(supported) && !driver.seen.trouble && !driver.seen.noData
      ensures ok ==> hstmt[id] != NULL_HANDLE && hdbc[id] != NULL_HANDLE && !lost
      ensures 0 <= id < MAX_DB && lost ==> IsReset(id)
      ensures ok && kind.NativeJson? ==> driver.done.rows
      ensures ok && kind.MultipleArrays? ==> driver.done.results
      ensures ok && kind.RowArray? ==> !driver.done.owed
      ensures ok && kind.NativeJson? ==> driver.done.values - old(driver.done.values) == driver.seen.rows - old(driver.seen.rows)
    {
      lastNative := 0;
      var prepared, h := PrepareAndBind(id, configured, supported);
      ok := false;
      if prepared {
        ok := Run(id, h, kind);
      }
      Cleanup(h);
    }

    method Run(id: int, h: Handle, kind: FetchKind) returns (ok: bool)
      requires Valid() && Armed() && 0 <= id < MAX_DB && Current(id, h) && !driver.seen.trouble && !driver.seen.noData && !lost
      requires driver.open.Only(h) && driver.open.cursors == {} && driver.open.columns == {}
      modifies this`lost, this`lastNative, driver, hdbc, hstmt
      ensures Valid() && Armed() && OthersKept(id)
      ensures ok ==> Current(id, h) && !lost
      ensures lost ==> IsReset(id)
      ensures driver.open.Only(h)
      ensures ok <==> !driver.seen.trouble && !driver.seen.noData
      ensures ok && kind.NativeJson? ==> driver.done.rows
      ensures ok && kind.MultipleArrays? ==> driver.done.results
      ensures ok && kind.RowArray? ==> !driver.done.owed
      ensures ok && kind.NativeJson? ==> driver.done.values - old(driver.done.values) == driver.seen.rows - old(driver.seen.rows)
    {
      var r := driver.Execute(h);
      if Succeeded(r) {
        match kind {
          case NativeJson => ok := FetchNative(id, h);
          case RowArray => ok := FetchRows(id, h, true);
          case MultipleArrays => ok := FetchMany(id, h);
        }
      } else {
        ghost var records := SetError(id, Statement(h));
        ok := false;
      }
    }

    /** `db_query_single_row`; `supported` tells which input and output parameters have a known type. It
        succeeds exactly when, besides, no value was truncated; a row is found exactly when one arrived. */
    method QuerySingleRow(id: int, configured: bool, supported: seq<bool>, outSupported: seq<bool>) returns (ok: bool, found: bool)
      requires Valid() && Armed() && AtRest() && driver.seen == NOTHING_SEEN && !lost
      modifies this`destructorArmed, this`lost, this`lastNative, driver, hdbc, hstmt
      ensures Valid() && Armed() && AtRest()
      ensures 0 <= id < MAX_DB ==> OthersKept(id)
      ensures ok <==>
        Reachable(id, configured) && AllTrue(supported) && AllTrue(outSupported) && !driver.seen.trouble && !driver.seen.info
      ensures found <==> ok && driver.seen.rows == 1
      ensures ok ==> hstmt[id] != NULL_HANDLE && hdbc[id] != NULL_HANDLE && !lost
      ensures 0 <= id < MAX_DB && lost ==> IsReset(id)
      ensures ok ==> driver.binds == old(driver.binds) + |supported| + |outSupported|
    {
      found := false;
      var h;
      ok, h := PrepareAndBind(id, configured, supported);
      if ok {
        ok, found := RunSingleRow(id, h, outSupported);
      }
      Cleanup(h);
    }

    method RunSingleRow(id: int, h: Handle, outSupported: seq<bool>) returns (ok: bool, found: bool)
      requires Valid() && Armed() && 0 <= id < MAX_DB && Current(id, h) && driver.seen == NOTHING_SEEN && !lost
      requires driver.open.Only(h) && driver.open.cursors == {} && driver.open.columns == {}
      modifies this`lost, this`lastNative, driver, hdbc, hstmt
      ensures Valid() && Armed() && OthersKept(id)
      ensures ok ==> Current(id, h) && !lost
      ensures lost ==> IsReset(id)
      ensures driver.open.Only(h)
      ensures ok <==> AllTrue(outSupported) && !driver.seen.trouble && !driver.seen.info
      ensures found <==> ok && driver.seen.rows == 1
      ensures ok ==> driver.binds == old(driver.binds) + |outSupported|
    {
      found := false;
      ok := BindOutput(id, h, outSupported);
      if !ok {
        return;
      }
      ok, found := FetchOne(id, h);
    }

    method FetchOne(id: int, h: Handle) returns (ok: bool, found: bool)
      requires Valid() && Armed() && 0 <= id < MAX_DB && Current(id, h) && driver.seen == NOTHING_SEEN && !lost
      requires driver.open.Only(h) && driver.open.cursors == {}
      modifies this`lost, this`lastNative
      modifies driver`conns, driver`stmts, driver`open, driver`seen, driver`done
      modifies driver`rowsLeft, driver`resultsLeft, driver`chunksLeft, hdbc, hstmt
      ensures Valid() && Armed() && OthersKept(id)
      ensures ok ==> Current(id, h) && !lost
      ensures lost ==> IsReset(id)
      ensures driver.open.Only(h)
      ensures ok <==> !driver.seen.trouble && !driver.seen.info
      ensures found <==> ok && driver.seen.rows == 1
    {
      var r := driver.Execute(h);
      if !Succeeded(r) && !r.NoData? {
        ghost var records := SetError(id, Statement(h));
        return false, false;
      }
      r := driver.Fetch(h);
      if r.NoData? {
        return true, false;
      }
      if !r.Success? {
        ghost var records := SetError(id, Statement(h));
        return false, false;
      }
      return true, true;
    }

    method BindOutput(id: int, h: Handle, supported: seq<bool>) returns (ok: bool)
      requires Valid() && Armed() && 0 <= id < MAX_DB && Current(id, h) && !driver.seen.trouble && !lost
      requires driver.open.Only(h) && driver.open.cursors == {}
      modifies this`lost, this`lastNative, driver`conns, driver`stmts, driver`open, driver`seen, driver`binds, hdbc, hstmt
      ensures Valid() && Armed() && OthersKept(id)
      ensures ok ==> Current(id, h) && !lost
      ensures lost ==> IsReset(id)
      ensures driver.open.Only(h) && driver.open.cursors == {}
      ensures driver.seen == old(driver.seen).Judge(!driver.seen.trouble)
      ensures ok <==> AllTrue(supported) && !driver.seen.trouble
      ensures ok ==> driver.binds == old(driver.binds) + |supported|
    {
      for i := 0 to |supported|
        invariant Valid() && Armed() && Current(id, h) && OthersKept(id) && !lost && driver.binds == old(driver.binds) + i
        invariant driver.open.Only(h) && driver.open.cursors == {}
        invariant driver.seen == old(driver.seen) && AllTrue(supported[..i])
      {
        ok := BindOne(id, h, supported[i], true);
        if !ok {
          return;
        }
      }
      assert supported[..|supported|] == supported;
      ok := true;
    }

    /** `tl_hdbc_destructor`, run at thread exit: every handle the thread ever got is freed. */
    method ThreadExit()
      requires Valid() && Armed()
      modifies driver`conns, driver`stmts, driver`open, hdbc, hstmt
      ensures Valid() && driver.conns == {} && driver.stmts == map[]
    {
      if destructorArmed {
        for i := 0 to MAX_DB
          invariant Valid()
          invariant forall j :: 0 <= j < i ==> hdbc[j] == NULL_HANDLE && hstmt[j] == NULL_HANDLE
        {
          Reset(i);
        }
      }
      assert forall h :: h in driver.conns ==> Cached(hdbc, h);
      assert forall h :: h !in driver.conns;
      assert forall h :: h !in driver.stmts;
    }
  }
}
