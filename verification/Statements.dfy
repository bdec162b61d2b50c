/** Exactly what a statement of the user does: which values the rows show, which clock entries its
    triggers write, and, over a run of statements, that a column version counts the writes that its
    trigger saw. */
module Statements {
  import opened Wrappers
  import opened Crdt
  import opened Merging

  /** The columns of a table have different names. */
  predicate Distinct(cids: seq<Cid>) {
    forall i, j | 0 <= i < j < |cids| :: cids[i] != cids[j]
  }

  /** Whether a sub-trigger of the statement fires for a column, or for the sentinel of the row. */
  predicate Fires(db: Db, w: Write, cids: seq<Cid>, cell: Cell) {
    cell.row == w.row &&
    match w
    case Insert(_, _) => cell.cid in cids
    case Update(_, vals) =>
      w.row in db.rows && cell.cid in cids && cell.cid in vals &&
      SqlNotEqual(vals[cell.cid], Column(db, w.row, cell.cid))
    case Delete(_) => w.row in db.rows && cell.cid == DELETE_CID
  }

  /** How often a cell was written, 0 without an entry. */
  function ColVersion(clock: map<Cell, Entry>, cell: Cell): int {
    if cell in clock then clock[cell].colVersion else 0
  }

  // ---- Clock entries ----------------------------------------------------------------------

  /** The triggers of several columns: each column goes up by one. */
  lemma {:induction false} BumpAllEntries(clock: map<Cell, Entry>, row: RowId, cids: seq<Cid>, next: int, cell: Cell)
    requires Distinct(cids)
    ensures var after := BumpAll(clock, row, cids, next);
      if cell.row == row && cell.cid in cids
      then cell in after && after[cell] == Entry(ColVersion(clock, cell) + 1, next, None)
      else (cell in after <==> cell in clock) && (cell in clock ==> after[cell] == clock[cell])
  {
    if cids != [] {
      var n := |cids| - 1;
      BumpAllEntries(clock, row, cids[..n], next, cell);
      assert cids == cids[..n] + [cids[n]] && cids[n] !in cids[..n];
    }
  }

  lemma {:induction false} ChangedDistinct(before: Values, after: Values, cids: seq<Cid>)
    requires Distinct(cids)
    ensures Distinct(Changed(before, after, cids)) && forall c | c in Changed(before, after, cids) :: c in cids
  {
    if cids != [] {
      var n := |cids| - 1;
      ChangedDistinct(before, after, cids[..n]);
      assert cids == cids[..n] + [cids[n]] && cids[n] !in cids[..n];
    }
  }

  lemma ChangedFires(db: Db, w: Write, cids: seq<Cid>, cid: Cid)
    requires w.Update? && w.row in db.rows
    ensures cid in Changed(db.rows[w.row], db.rows[w.row] + w.vals, cids) <==> Fires(db, w, cids, Cell(w.row, cid))
  {
    ChangedMembers(db.rows[w.row], db.rows[w.row] + w.vals, cids);
  }

  /** After a statement an entry that a trigger wrote has one more than its old column version, the
      next version and no site, and every other entry is what it was. */
  lemma StatementEntries(db: Db, w: Write, cids: seq<Cid>, next: int, cell: Cell)
    requires Distinct(cids) && LocalWrite(db, w, cids, next).Ok?
    ensures var after := LocalWrite(db, w, cids, next).value.clock;
      if Fires(db, w, cids, cell)
      then cell in after && after[cell] == Entry(ColVersion(db.clock, cell) + 1, next, None)
      else (cell in after <==> cell in db.clock) && (cell in db.clock ==> after[cell] == db.clock[cell])
  {
    hide BumpAll, Changed;
    match w
    case Insert(row, _) => BumpAllEntries(db.clock, row, cids, next, cell);
    case Update(row, vals) =>
      if row in db.rows {
        var changed := Changed(db.rows[row], db.rows[row] + vals, cids);
        ChangedDistinct(db.rows[row], db.rows[row] + vals, cids);
        ChangedFires(db, w, cids, cell.cid);
        BumpAllEntries(db.clock, row, changed, next, cell);
      }
    case Delete(_) =>
  }

  // ---- Rows -------------------------------------------------------------------------------

  /** After a statement an inserted row shows each given value under its own column and NULL in the
      columns that were not given, an updated row the new values and otherwise the old ones, a deleted
      row is gone, and every other row is what it was. */
  lemma StatementRows(db: Db, w: Write, cids: seq<Cid>, next: int, row: RowId, cid: Cid)
    requires LocalWrite(db, w, cids, next).Ok?
    ensures var after := LocalWrite(db, w, cids, next).value;
      (row in after.rows <==> if row == w.row && !w.Update? then w.Insert? else row in db.rows) &&
      (row != w.row && row in db.rows ==> after.rows[row] == db.rows[row]) &&
      (row == w.row && row in after.rows ==>
        (w.Insert? ==> row !in db.rows && (cid in after.rows[row] <==> cid in cids)) &&
        Column(after, row, cid) ==
          if w.Insert? then (if cid in cids && cid in w.vals then w.vals[cid] else NULL)
          else if w.Update? && cid in w.vals then w.vals[cid]
          else Column(db, row, cid))
  {
  }

  /** An INSERT fails exactly for a key that there is, and nothing else does. */
  lemma StatementFails(db: Db, w: Write, cids: seq<Cid>, next: int)
    ensures LocalWrite(db, w, cids, next).IsFailure() <==> w.Insert? && w.row in db.rows
  {
  }

  // ---- Runs of statements -----------------------------------------------------------------

  /** A statement with the columns of its table and the version of its transaction. */
  datatype Statement = Statement(write: Write, cids: seq<Cid>, next: int)

  function RunAll(db: Db, statements: seq<Statement>): Outcome<Db> {
    if statements == [] then Ok(db) else
      var n := |statements| - 1;
      var front :- RunAll(db, statements[..n]);
      LocalWrite(front, statements[n].write, statements[n].cids, statements[n].next)
  }

  /** How many of the statements fire the trigger of a cell. */
  function Fired(db: Db, statements: seq<Statement>, cell: Cell): nat
    requires RunAll(db, statements).Ok?
  {
    if statements == [] then 0 else
      var n := |statements| - 1;
      Fired(db, statements[..n], cell) +
      if Fires(RunAll(db, statements[..n]).value, statements[n].write, statements[n].cids, cell) then 1 else 0
  }

  /** The column version of whatever is never merged counts the writes that its trigger saw. */
  lemma {:induction false} ColVersionCounts(db: Db, statements: seq<Statement>, cell: Cell)
    requires RunAll(db, statements).Ok? && forall s | s in statements :: Distinct(s.cids)
    ensures ColVersion(RunAll(db, statements).value.clock, cell) ==
      ColVersion(db.clock, cell) + Fired(db, statements, cell)
  {
    hide LocalWrite, Fires;
    if statements != [] {
      var n := |statements| - 1;
      ColVersionCounts(db, statements[..n], cell);
      var s := statements[n];
      StatementEntries(RunAll(db, statements[..n]).value, s.write, s.cids, s.next, cell);
    }
  }
}
