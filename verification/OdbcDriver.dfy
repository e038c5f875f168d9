/** What lib/dbapi.c may do with an ODBC driver, and nothing about how the driver answers.

    Every method demands that the handle it is given is alive; results are arbitrary. A freed handle's
    value may be handed out again. A result set has finitely many rows, a batch finitely many result
    sets and a column value finitely many chunks. */
module OdbcDriver {

  type Handle = int
  const NULL_HANDLE: Handle := 0

  /** Length indicators: the value is missing; its length is not known. */
  const NULL_DATA: int := -1
  const NO_TOTAL: int := -4

  datatype Return = Success | SuccessWithInfo | NoData | Error

  predicate Succeeded(r: Return) {
    r.Success? || r.SuccessWithInfo?
  }

  /** One diagnostic record: whether its SQLSTATE is 08S01 or 08003, and its native error code. */
  datatype Diagnostic = Diagnostic(disconnect: bool, nativeError: int)

  /** What the calls that matter have answered: some call failed; an execution found nothing; a fetch delivered
      only part of a value; and how many rows arrived. */
  datatype Seen = Seen(trouble: bool, noData: bool, info: bool, rows: nat) {
    function Judge(good: bool): Seen {
      this.(trouble := trouble || !good)
    }
  }

  /** Statements with an open cursor, with bound parameters, with bound columns. */
  datatype Open = Open(cursors: set<Handle>, params: set<Handle>, columns: set<Handle>) {
    function Without(h: Handle): Open {
      Open(cursors - {h}, params - {h}, columns - {h})
    }

    predicate Within(other: Open) {
      cursors <= other.cursors && params <= other.params && columns <= other.columns
    }

    predicate Only(h: Handle) {
      cursors <= {h} && params <= {h} && columns <= {h}
    }
  }

  /** How far the answers were used: whether the rows of the current result and the results of the batch were
      read to their end, whether a result is known to have columns that were not read yet, and how many values
      were read in full. */
  datatype Done = Done(rows: bool, results: bool, owed: bool, values: nat)

  const NOTHING_SEEN: Seen := Seen(false, false, false, 0)

  const NOTHING_OPEN: Open := Open({}, {}, {})

  class Driver {
    var conns: set<Handle>
    var stmts: map<Handle, Handle>    // live statement -> the connection it was allocated on
    var next: Handle
    ghost var open: Open
    ghost var seen: Seen
    ghost var done: Done
    ghost var binds: nat         // parameters and columns bound so far
    ghost var rowsLeft: nat
    ghost var resultsLeft: nat
    ghost var chunksLeft: nat

    ghost predicate Valid()
      reads this
    {
      && next > 0
      && (forall h :: h in conns ==> 0 < h < next)
      && (forall h :: h in stmts ==> 0 < h < next && stmts[h] in conns)
      && open.cursors <= stmts.Keys && open.params <= stmts.Keys && open.columns <= stmts.Keys
    }

    constructor ()
      ensures Valid() && conns == {} && stmts == map[] && open == NOTHING_OPEN
    {
      conns, stmts, next := {}, map[], 1;
      open, seen, done := NOTHING_OPEN, NOTHING_SEEN, Done(false, false, false, 0);
      binds := 0;
      rowsLeft, resultsLeft, chunksLeft := 0, 0, 0;
    }

    method AllocConnection() returns (ok: bool, h: Handle)
      requires Valid()
      modifies this`conns, this`next, this`seen
      ensures Valid() && seen == old(seen).Judge(ok)
      ensures ok ==> h != NULL_HANDLE && h !in old(conns) && conns == old(conns) + {h}
      ensures !ok ==> h == NULL_HANDLE && conns == old(conns)
    {
      ok := *;
      h := NULL_HANDLE;
      if ok {
        h := next;
        conns, next := conns + {h}, next + 1;
      }
      seen := seen.Judge(ok);
    }

    method FreeConnection(h: Handle)
      requires Valid() && h in conns && h !in stmts.Values
      modifies this`conns
      ensures Valid() && conns == old(conns) - {h}
    {
      conns := conns - {h};
    }

    /** SQLDisconnect, SQLSetConnectAttr: the answer does not matter. */
    method TuneConnection(h: Handle)
      requires Valid() && h in conns
    {
    }

    /** SQLDriverConnect. */
    method Connect(h: Handle) returns (ok: bool)
      requires Valid() && h in conns
      modifies this`seen
      ensures Valid() && seen == old(seen).Judge(ok)
    {
      ok := *;
      seen := seen.Judge(ok);
    }

    method AllocStatement(conn: Handle) returns (ok: bool, h: Handle)
      requires Valid() && conn in conns
      modifies this`stmts, this`next, this`seen
      ensures Valid() && seen == old(seen).Judge(ok)
      ensures ok ==> h != NULL_HANDLE && h !in old(stmts) && stmts == old(stmts)[h := conn]
      ensures !ok ==> h == NULL_HANDLE && stmts == old(stmts)
    {
      ok := *;
      h := NULL_HANDLE;
      if ok {
        h := next;
        stmts, next := stmts[h := conn], next + 1;
      }
      seen := seen.Judge(ok);
    }

    method FreeStatement(h: Handle)
      requires Valid() && h in stmts
      modifies this`stmts, this`open
      ensures Valid() && stmts == old(stmts) - {h} && open == old(open).Without(h)
    {
      stmts := stmts - {h};
      open := open.Without(h);
    }

    /** SQLSetStmtAttr: the answer does not matter. */
    method TuneStatement(h: Handle)
      requires Valid() && h in stmts
    {
    }

    method BindParameter(h: Handle) returns (r: Return)
      requires Valid() && h in stmts
      modifies this`open, this`seen, this`binds
      ensures Valid() && open == old(open).(params := old(open).params + {h}) && seen == old(seen).Judge(Succeeded(r))
      ensures binds == old(binds) + 1
    {
      binds := binds + 1;
      r := *;
      open := open.(params := open.params + {h});
      seen := seen.Judge(Succeeded(r));
    }

    method BindColumn(h: Handle) returns (r: Return)
      requires Valid() && h in stmts
      modifies this`open, this`seen, this`binds
      ensures Valid() && open == old(open).(columns := old(open).columns + {h}) && seen == old(seen).Judge(Succeeded(r))
      ensures binds == old(binds) + 1
    {
      binds := binds + 1;
      r := *;
      open := open.(columns := open.columns + {h});
      seen := seen.Judge(Succeeded(r));
    }

    /** SQLNumResultCols with its answer checked. */
    method CountColumns(h: Handle) returns (r: Return, n: nat)
      requires Valid() && h in stmts
      modifies this`seen, this`done
      ensures Valid() && seen == old(seen).Judge(Succeeded(r))
      ensures Succeeded(r) ==> done == old(done).(owed := n > 0)
    {
      r := *;
      n := *;
      seen, done := seen.Judge(Succeeded(r)), done.(owed := n > 0);
    }

    /** SQLNumResultCols with its answer ignored. */
    method PeekColumns(h: Handle) returns (n: nat)
      requires Valid() && h in stmts
      modifies this`done
      ensures Valid() && done == old(done).(owed := n > 0)
    {
      n := *;
      done := done.(owed := n > 0);
    }

    /** SQLDescribeCol, and whether the column sizes still add up. */
    method DescribeColumn(h: Handle) returns (r: Return, sizeFits: bool)
      requires Valid() && h in stmts
      modifies this`seen
      ensures Valid() && seen == old(seen).Judge(Succeeded(r) && sizeFits)
    {
      r := *;
      sizeFits := *;
      seen := seen.Judge(Succeeded(r) && sizeFits);
    }

    /** Memory for descriptors and column buffers. */
    method Reserve() returns (ok: bool)
      requires Valid()
      modifies this`seen
      ensures Valid() && seen == old(seen).Judge(ok)
    {
      ok := *;
      seen := seen.Judge(ok);
    }

    /** A statement can be executed only while it has no open cursor. */
    method Execute(h: Handle) returns (r: Return)
      requires Valid() && h in stmts && h !in open.cursors
      modifies this`open, this`seen, this`done, this`rowsLeft, this`resultsLeft
      ensures Valid() && open == old(open).(cursors := old(open).cursors + {h})
      ensures done == Done(false, false, false, old(done).values)
      ensures seen == old(seen).Judge(!r.Error?).(noData := old(seen).noData || r.NoData?)
    {
      rowsLeft, resultsLeft := *, *;
      r := *;
      open := open.(cursors := open.cursors + {h});
      done := Done(false, false, false, done.values);
      seen := seen.Judge(!r.Error?).(noData := seen.noData || r.NoData?);
    }

    method Fetch(h: Handle) returns (r: Return)
      requires Valid() && h in stmts && h in open.cursors
      modifies this`seen, this`done, this`rowsLeft, this`chunksLeft
      ensures Valid() && (Succeeded(r) ==> rowsLeft < old(rowsLeft))
      ensures seen == old(seen).Judge(!r.Error?).(
        info := old(seen).info || r.SuccessWithInfo?, rows := old(seen).rows + if Succeeded(r) then 1 else 0)
      ensures done == old(done).(rows := r.NoData?, owed := old(done).owed && !r.NoData?)
    {
      chunksLeft := *;
      if * {
        r := NoData;
      } else {
        r := Error;
      }
      seen, done := seen.Judge(!r.Error?), done.(rows := r.NoData?, owed := done.owed && !r.NoData?);
    }

    /** A result with columns is left only after its rows were read. */
    method MoreResults(h: Handle) returns (r: Return)
      requires Valid() && h in stmts && h in open.cursors && !done.owed
      modifies this`seen, this`done, this`rowsLeft, this`resultsLeft
      ensures Valid() && (Succeeded(r) ==> resultsLeft < old(resultsLeft))
      ensures seen == old(seen).Judge(!r.Error?) && done == old(done).(results := r.NoData?)
    {
      rowsLeft := *;
      if * {
        r := NoData;
      } else {
        r := Error;
      }
      seen, done := seen.Judge(!r.Error?), done.(results := r.NoData?);
    }

    method GetData(h: Handle) returns (r: Return, isNull: bool)
      requires Valid() && h in stmts && h in open.cursors
      modifies this`seen, this`done, this`chunksLeft
      ensures Valid() && (r.SuccessWithInfo? ==> chunksLeft < old(chunksLeft))
      ensures seen == old(seen).Judge(!r.Error?)
      ensures done == old(done).(values := old(done).values + if !r.Error? && (isNull || !r.SuccessWithInfo?) then 1 else 0)
    {
      r := *;
      isNull := *;
      if r.SuccessWithInfo? {
        r := NoData;
      }
      seen, done := seen.Judge(!r.Error?), done.(values := done.values + if !r.Error? then 1 else 0);
    }

    /** SQLFreeStmt with SQL_CLOSE. */
    method CloseCursor(h: Handle)
      requires Valid() && h in stmts
      modifies this`open
      ensures Valid() && open == old(open).(cursors := old(open).cursors - {h})
    {
      open := open.(cursors := open.cursors - {h});
    }

    /** SQLFreeStmt with SQL_RESET_PARAMS. */
    method ResetParameters(h: Handle)
      requires Valid() && h in stmts
      modifies this`open
      ensures Valid() && open == old(open).(params := old(open).params - {h})
    {
      open := open.(params := open.params - {h});
    }

    /** SQLFreeStmt with SQL_UNBIND. */
    method UnbindColumns(h: Handle)
      requires Valid() && h in stmts
      modifies this`open
      ensures Valid() && open == old(open).(columns := old(open).columns - {h})
    {
      open := open.(columns := open.columns - {h});
    }

    /** All SQLGetDiagRec records of a live connection. */
    method DiagnoseConnection(h: Handle) returns (records: seq<Diagnostic>)
      requires Valid() && h in conns
    {
      records := *;
    }

    method DiagnoseStatement(h: Handle) returns (records: seq<Diagnostic>)
      requires Valid() && h in stmts
    {
      records := *;
    }

    /** The environment handle outlives every connection. */
    method DiagnoseEnvironment() returns (records: seq<Diagnostic>)
      requires Valid()
    {
      records := *;
    }
  }
}
