/** One database as the extension runs it: tables, clock tables, the sync bit and the cached
    version are changed in place by the statements, their triggers and `crsql_mergeInsert`. */
module Replica {
  import opened Wrappers
  import opened ByteOrder
  import opened Crdt
  import opened Merging

  class Replica {
    /** The non-key columns of every table. */
    const schema: map<string, seq<Cid>>

    var rows: map<RowId, Values>
    var clock: map<Cell, Entry>
    var syncBit: int
    /** The cached version, -1 when there is none. */
    var dbVersion: int
    /** The version when the transaction began. */
    ghost var began: int

    function Abs(): Db
      reads this
    {
      Db(rows, clock)
    }

    function Columns(row: RowId): seq<Cid> {
      if row.tbl in schema then schema[row.tbl] else []
    }

    /** The cache, once filled, holds the version the transaction began with. */
    ghost predicate CacheOk()
      reads this
    {
      began >= 0 && (dbVersion == began || (dbVersion == -1 && DbVersion(clock) == began))
    }

    /** What holds between two statements. */
    ghost predicate Valid()
      reads this
    {
      CacheOk() && syncBit == 0 && RowsPresent(Abs()) &&
      (forall t | t in schema :: TableColumns(schema[t])) &&
      (forall c | c in clock :: clock[c].dbVersion > 0)
    }

    constructor (schema: map<string, seq<Cid>>)
      requires forall t | t in schema :: TableColumns(schema[t])
      ensures Valid() && Abs() == EMPTY && began == 0 && this.schema == schema
    {
      this.schema := schema;
      rows, clock, syncBit, dbVersion, began := map[], map[], 0, -1, 0;
    }

    /** `crsql_nextdbversion()`: the same throughout a transaction. */
    method NextDbVersion() returns (next: int)
      requires CacheOk()
      modifies this`dbVersion
      ensures CacheOk() && dbVersion == began && next == began + 1
    {
      if dbVersion == -1 { dbVersion := DbVersion(clock); }
      next := dbVersion + 1;
    }

    // ---- Triggers -------------------------------------------------------------------------

    /** One sub-trigger: upserts a clock entry unless a merge is running. */
    method Upsert(cell: Cell)
      requires CacheOk()
      modifies this`clock, this`dbVersion
      ensures CacheOk()
      ensures clock == if syncBit == 0 then Bump(old(clock), cell, began + 1) else old(clock)
    {
      if syncBit == 0 {
        var next := NextDbVersion();
        clock := Bump(clock, cell, next);
      }
    }

    method InsertTrigger(row: RowId)
      requires CacheOk()
      modifies this`clock, this`dbVersion
      ensures CacheOk()
      ensures clock == if syncBit == 0 then BumpAll(old(clock), row, Columns(row), began + 1) else old(clock)
    {
      hide BumpAll, Bump;
      var cids := Columns(row);
      BumpAllNone(clock, row, began + 1);
      for i := 0 to |cids|
        invariant CacheOk()
        invariant clock == if syncBit == 0 then BumpAll(old(clock), row, cids[..i], began + 1) else old(clock)
      {
        BumpAllOneMore(old(clock), row, cids, i, began + 1);
        Upsert(Cell(row, cids[i]));
      }
      assert cids[..|cids|] == cids;
    }

    method UpdateTrigger(row: RowId, before: Values, after: Values)
      requires CacheOk()
      modifies this`clock, this`dbVersion
      ensures CacheOk()
      ensures clock == if syncBit == 0 then BumpAll(old(clock), row, Changed(before, after, Columns(row)), began + 1)
                       else old(clock)
    {
      hide BumpAll, Bump, BumpChanged, SqlNotEqual;
      var cids := Columns(row);
      BumpChangedNone(clock, row, before, after, began + 1);
      for i := 0 to |cids|
        invariant CacheOk()
        invariant clock == if syncBit == 0 then BumpChanged(old(clock), row, before, after, cids[..i], began + 1)
                           else old(clock)
      {
        BumpChangedOneMore(old(clock), row, before, after, cids, i, began + 1);
        if SqlNotEqual(ValueOf(after, cids[i]), ValueOf(before, cids[i])) {
          Upsert(Cell(row, cids[i]));
        }
      }
      assert cids[..|cids|] == cids;
      BumpChangedIs(old(clock), row, before, after, cids, began + 1);
    }

    method DeleteTrigger(row: RowId)
      requires CacheOk()
      modifies this`clock, this`dbVersion
      ensures CacheOk()
      ensures clock == if syncBit == 0 then Bump(old(clock), Cell(row, DELETE_CID), began + 1) else old(clock)
    {
      Upsert(Cell(row, DELETE_CID));
    }

    // ---- Local statements -----------------------------------------------------------------

    /** Runs one INSERT, UPDATE or DELETE of the user with its triggers. */
    method Execute(w: Write) returns (r: Outcome<()>)
      requires Valid()
      modifies this
      ensures Valid() && began == old(began)
      ensures match LocalWrite(old(Abs()), w, Columns(w.row), began + 1)
              case Ok(after) => r == Ok(()) && Abs() == after
              case Err(m) => r == Err(m) && Abs() == old(Abs())
              case Panic => false
    {
      ghost var before := Abs();
      hide RowsPresent, BumpAll, Bump, Changed, FullRow;
      match w {
        case Insert(row, vals) =>
          if row in rows { return Err("UNIQUE constraint failed"); }
          rows := rows[row := FullRow(vals, Columns(row))];
          InsertTrigger(row);
        case Update(row, vals) =>
          if row in rows {
            var current := rows[row];
            rows := rows[row := current + vals];
            UpdateTrigger(row, current, rows[row]);
          }
        case Delete(row) =>
          if row in rows {
            rows := rows - {row};
            DeleteTrigger(row);
          }
      }
      assert LocalWrite(before, w, Columns(w.row), began + 1) == Ok(Abs());
      hide LocalWrite;
      LocalWriteVersions(before, w, Columns(w.row), began + 1);
      LocalWriteKeepsRows(before, w, Columns(w.row), began + 1);
      return Ok(());
    }

    // ---- Merging --------------------------------------------------------------------------

    /** `crsql_checkForLocalDelete` */
    method CheckForLocalDelete(row: RowId) returns (deleted: bool)
      ensures deleted == Tomb(Abs(), row)
    {
      deleted := Cell(row, DELETE_CID) in clock;
    }

    /** `crsql_setWinnerClock` */
    method SetWinner(ch: Change)
      requires CacheOk()
      modifies this`clock, this`dbVersion
      ensures CacheOk() && clock == SetWinnerClock(old(clock), ch, began + 1)
    {
      var next := NextDbVersion();
      clock := clock[CellOf(ch) := Entry(ch.colVersion, Max(next, ch.dbVersion), Some(ch.site))];
    }

    /** The INSERT ... ON CONFLICT DO UPDATE of a winning column, which fires the triggers of the table. */
    method WriteColumn(row: RowId, cid: Cid, val: string)
      requires CacheOk() && syncBit == 1
      modifies this`rows, this`clock, this`dbVersion
      ensures CacheOk() && clock == old(clock) && rows == SetColumn(old(rows), row, cid, val)
    {
      if row in rows {
        var before := rows[row];
        rows := rows[row := before[cid := val]];
        UpdateTrigger(row, before, rows[row]);
      } else {
        rows := rows[row := map[cid := val]];
        InsertTrigger(row);
      }
    }

    /** `crsql_mergeDelete` */
    method MergeDelete(ch: Change)
      requires CacheOk() && syncBit == 0
      modifies this
      ensures CacheOk() && syncBit == 0 && began == old(began)
      ensures Abs() == Db(old(rows) - {ch.row}, SetWinnerClock(old(clock), ch.(cid := DELETE_CID), began + 1))
    {
      syncBit := 1;
      if ch.row in rows {
        rows := rows - {ch.row};
        DeleteTrigger(ch.row);
      }
      syncBit := 0;
      SetWinner(ch.(cid := DELETE_CID));
    }

    /** `crsql_mergeInsert`: the triggers stay silent, the clock gets the remote column version,
        and the error of a missing row never occurs. */
    method MergeInsert(ch: Change) returns (r: Outcome<()>)
      requires Valid()
      modifies this
      ensures Valid() && began == old(began)
      ensures r == Ok(()) && Merge(old(Abs()), ch, began + 1) == Ok(Abs())
    {
      hide RowsPresent, Lt, TableColumns;
      ghost var before := Abs();
      MergeSucceeds(before, ch, began + 1);
      var deleted := CheckForLocalDelete(ch.row);
      if deleted { return Ok(()); }
      if ch.cid == DELETE_CID {
        MergeDelete(ch);
        return Ok(());
      }
      var win := DidCidWin(Db(rows, clock), ch);
      if win.IsFailure() { return win.PropagateFailure(); }
      if !win.value { return Ok(()); }
      syncBit := 1;
      WriteColumn(ch.row, ch.cid, ch.val);
      syncBit := 0;
      SetWinner(ch);
      return Ok(());
    }

    /** Applies the changes of a message one after the other. */
    method ApplyChanges(changes: seq<Change>)
      requires Valid()
      modifies this
      ensures Valid() && began == old(began)
      ensures MergeAll(old(Abs()), changes, began + 1) == Ok(Abs())
    {
      hide RowsPresent, TableColumns, Merge;
      for i := 0 to |changes|
        invariant Valid() && began == old(began)
        invariant MergeAll(old(Abs()), changes[..i], began + 1) == Ok(Abs())
      {
        var _ := MergeInsert(changes[i]);
        assert changes[..i + 1][..i] == changes[..i];
      }
      assert changes[..|changes|] == changes;
    }

    /** `commitHook`: the next transaction begins at the version reached. */
    method Commit()
      requires Valid()
      modifies this`dbVersion, this`began
      ensures Valid() && began == DbVersion(clock) && dbVersion == -1
    {
      dbVersion := -1;
      began := DbVersion(clock);
    }
  }

  lemma BumpAllNone(clock: map<Cell, Entry>, row: RowId, next: int)
    ensures BumpAll(clock, row, [], next) == clock
  {
  }

  lemma BumpAllOneMore(clock: map<Cell, Entry>, row: RowId, cids: seq<Cid>, i: nat, next: int)
    requires i < |cids|
    ensures BumpAll(clock, row, cids[..i + 1], next) ==
      Bump(BumpAll(clock, row, cids[..i], next), Cell(row, cids[i]), next)
  {
    assert cids[..i + 1][..i] == cids[..i];
  }

  /** What the sub-triggers of an UPDATE do for a list of columns. */
  function BumpChanged(clock: map<Cell, Entry>, row: RowId, before: Values, after: Values, cids: seq<Cid>,
    next: int): map<Cell, Entry>
  {
    BumpAll(clock, row, Changed(before, after, cids), next)
  }

  lemma BumpChangedNone(clock: map<Cell, Entry>, row: RowId, before: Values, after: Values, next: int)
    ensures BumpChanged(clock, row, before, after, [], next) == clock
  {
  }

  lemma BumpChangedIs(clock: map<Cell, Entry>, row: RowId, before: Values, after: Values, cids: seq<Cid>, next: int)
    ensures BumpChanged(clock, row, before, after, cids, next) ==
      BumpAll(clock, row, Changed(before, after, cids), next)
  {
  }

  lemma BumpChangedOneMore(clock: map<Cell, Entry>, row: RowId, before: Values, after: Values, cids: seq<Cid>,
    i: nat, next: int)
    requires i < |cids|
    ensures BumpChanged(clock, row, before, after, cids[..i + 1], next) ==
      if SqlNotEqual(ValueOf(after, cids[i]), ValueOf(before, cids[i]))
      then Bump(BumpChanged(clock, row, before, after, cids[..i], next), Cell(row, cids[i]), next)
      else BumpChanged(clock, row, before, after, cids[..i], next)
  {
    assert cids[..i + 1][..i] == cids[..i];
    var front := Changed(before, after, cids[..i]);
    assert (front + [cids[i]])[..|front|] == front;
  }

  /** The changes of one transaction, all with the same next version. */
  function MergeAll(db: Db, changes: seq<Change>, next: int): Outcome<Db> {
    if changes == [] then Ok(db) else
      var n := |changes| - 1;
      var front :- MergeAll(db, changes[..n], next);
      Merge(front, changes[n], next)
  }

  lemma LocalWriteVersions(db: Db, w: Write, cids: seq<Cid>, next: int)
    requires next > 0 && forall c | c in db.clock :: db.clock[c].dbVersion > 0
    requires LocalWrite(db, w, cids, next).Ok?
    ensures var after := LocalWrite(db, w, cids, next).value;
      forall c | c in after.clock :: after.clock[c].dbVersion > 0
  {
    match w
    case Insert(row, _) => BumpAllCells(db.clock, row, cids, next);
    case Update(row, vals) =>
      if row in db.rows {
        BumpAllCells(db.clock, row, Changed(db.rows[row], db.rows[row] + vals, cids), next);
      }
    case Delete(_) =>
  }
}
