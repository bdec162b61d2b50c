/** Merging is a join: what a database shows depends only on the set of changes it has merged. */
module Merging {
  import opened Wrappers
  import opened ByteOrder
  import opened Crdt

  // ---- The order on column values ---------------------------------------------------------

  /** What decides between two values of a column: the version first, then the value. */
  datatype Stamp = Stamp(version: int, val: string)

  predicate Le(a: Stamp, b: Stamp) {
    a.version < b.version || (a.version == b.version && (a.val == b.val || Lt(a.val, b.val)))
  }

  lemma LeTransitive(a: Stamp, b: Stamp, c: Stamp)
    requires Le(a, b) && Le(b, c)
    ensures Le(a, c)
  {
    if a.version == c.version && a.val != b.val && b.val != c.val { LtTransitive(a.val, b.val, c.val); }
  }

  lemma LeAntisymmetric(a: Stamp, b: Stamp)
    requires Le(a, b) && Le(b, a)
    ensures a == b
  {
    if a.val != b.val { LtAsymmetric(a.val, b.val); }
  }

  lemma LeTotal(a: Stamp, b: Stamp)
    ensures Le(a, b) || Le(b, a)
  {
    LtTotal(a.val, b.val);
  }

  function StampOf(db: Db, cell: Cell): Stamp
    requires cell in db.clock
  {
    Stamp(db.clock[cell].colVersion, Column(db, cell.row, cell.cid))
  }

  function StampOfChange(ch: Change): Stamp {
    Stamp(ch.colVersion, ch.val)
  }

  // ---- What is read of an entry -----------------------------------------------------------

  /** Whatever the entry, its change carries its own versions and its site, or the reader's for an own
      entry. Only a tombstone, or an entry without its row, reads as a delete without a value. */
  lemma ReadFields(db: Db, self: Site, cell: Cell)
    requires cell in db.clock
    ensures var ch, e := ReadEntry(db, self, cell), db.clock[cell];
      ch.row == cell.row && ch.colVersion == e.colVersion && ch.dbVersion == e.dbVersion &&
      (e.site == Some(ch.site) || (e.site == None && ch.site == self)) &&
      (cell.cid == DELETE_CID || cell.row !in db.rows ==> ch.cid == DELETE_CID && ch.val == NULL) &&
      (cell.cid != DELETE_CID && cell.row in db.rows ==> CellOf(ch) == cell && StampOfChange(ch) == StampOf(db, cell))
  {
  }

  // ---- Merging never meets a missing row --------------------------------------------------

  predicate IsColumn(cell: Cell) {
    cell.cid != DELETE_CID
  }

  /** A column entry of a row that was not deleted has its row, with a value for the column. */
  predicate RowsPresent(db: Db) {
    forall cell | cell in db.clock && IsColumn(cell) && !Tomb(db, cell.row) ::
      cell.row in db.rows && cell.cid in db.rows[cell.row]
  }

  /** The columns of a table are no sentinels. */
  predicate TableColumns(cids: seq<Cid>) {
    DELETE_CID !in cids
  }

  lemma {:induction false} BumpAllCells(clock: map<Cell, Entry>, row: RowId, cids: seq<Cid>, next: int)
    ensures var after := BumpAll(clock, row, cids, next);
      (forall cell | cell in after :: cell in clock || (cell.row == row && cell.cid in cids)) &&
      (forall cell | cell in clock :: cell in after) &&
      (forall cell | cell in clock && !(cell.row == row && cell.cid in cids) :: after[cell] == clock[cell]) &&
      (forall c | c in cids :: Cell(row, c) in after && after[Cell(row, c)].dbVersion == next &&
                              after[Cell(row, c)].site == None &&
                              after[Cell(row, c)].colVersion >=
                                1 + if Cell(row, c) in clock then clock[Cell(row, c)].colVersion else 0)
  {
    if cids != [] { BumpAllCells(clock, row, cids[..|cids| - 1], next); }
  }

  lemma {:induction false} ChangedMembers(before: Values, after: Values, cids: seq<Cid>)
    ensures forall c :: c in Changed(before, after, cids) <==>
      c in cids && SqlNotEqual(ValueOf(after, c), ValueOf(before, c))
  {
    if cids != [] {
      var n := |cids| - 1;
      ChangedMembers(before, after, cids[..n]);
      assert cids == cids[..n] + [cids[n]];
    }
  }

  /** Local writes keep every column entry on its row. */
  lemma LocalWriteKeepsRows(db: Db, w: Write, cids: seq<Cid>, next: int)
    requires RowsPresent(db) && TableColumns(cids) && LocalWrite(db, w, cids, next).Ok?
    ensures RowsPresent(LocalWrite(db, w, cids, next).value)
  {
    match w
    case Insert(row, vals) => BumpAllCells(db.clock, row, cids, next);
    case Update(row, vals) =>
      if row in db.rows {
        var after := db.rows[row] + vals;
        ChangedMembers(db.rows[row], after, cids);
        BumpAllCells(db.clock, row, Changed(db.rows[row], after, cids), next);
      }
    case Delete(_) =>
  }

  /** In every such state "could not find row to merge with" is unreachable, and the state stays so. */
  lemma MergeSucceeds(db: Db, ch: Change, next: int)
    requires RowsPresent(db)
    ensures Merge(db, ch, next).Ok? && RowsPresent(Merge(db, ch, next).value)
  {
  }

  /** A change wins exactly when the column does not yet have a value at least as good. */
  lemma WinsIff(db: Db, ch: Change)
    requires CellOf(ch) in db.clock && ch.row in db.rows
    ensures DidCidWin(db, ch) == Ok(!Le(StampOfChange(ch), StampOf(db, CellOf(ch))))
  {
    var local := Column(db, ch.row, ch.cid);
    LtTotal(ch.val, local);
    LtIrreflexive(local);
    if Lt(local, ch.val) { LtAsymmetric(local, ch.val); }
  }

  // ---- Order and duplicate insensitivity --------------------------------------------------

  function CellOf(ch: Change): Cell {
    Cell(ch.row, ch.cid)
  }

  ghost predicate Mentions(changes: set<Change>, cell: Cell) {
    exists ch :: ch in changes && CellOf(ch) == cell
  }

  ghost predicate Touches(changes: set<Change>, row: RowId) {
    exists ch :: ch in changes && ch.row == row
  }

  /** A value that some change gives the column and that no change exceeds. */
  ghost predicate IsBest(changes: set<Change>, cell: Cell, s: Stamp) {
    (exists ch :: ch in changes && CellOf(ch) == cell && StampOfChange(ch) == s) &&
    (forall ch | ch in changes && CellOf(ch) == cell :: Le(StampOfChange(ch), s))
  }

  /** Which rows and columns there are: deletes absorb their row, every other row has exactly
      the mentioned columns. */
  ghost predicate ShowsCells(db: Db, changes: set<Change>) {
    ShowsRows(db, changes) && ShowsColumns(db, changes) && ShowsEntries(db, changes)
  }

  ghost predicate ShowsRows(db: Db, changes: set<Change>) {
    (forall row :: Tomb(db, row) <==> Mentions(changes, Cell(row, DELETE_CID))) &&
    (forall row :: row in db.rows <==> !Tomb(db, row) && Touches(changes, row))
  }

  ghost predicate ShowsColumns(db: Db, changes: set<Change>) {
    forall row, cid | row in db.rows :: cid in db.rows[row] <==> Mentions(changes, Cell(row, cid))
  }

  ghost predicate ShowsEntries(db: Db, changes: set<Change>) {
    (forall row, cid | row in db.rows && cid in db.rows[row] :: Cell(row, cid) in db.clock) &&
    (forall cell | cell in db.clock :: Mentions(changes, cell))
  }

  ghost predicate ShowsBest(db: Db, changes: set<Change>) {
    forall cell | cell in db.clock && cell.row in db.rows :: IsBest(changes, cell, StampOf(db, cell))
  }

  /** A database that shows exactly the changes, each column with its best value. */
  ghost predicate Reflects(db: Db, changes: set<Change>) {
    ShowsCells(db, changes) && ShowsBest(db, changes)
  }

  lemma OneMore(changes: set<Change>, ch: Change)
    ensures forall cell :: Mentions(changes + {ch}, cell) <==> Mentions(changes, cell) || cell == CellOf(ch)
    ensures forall row :: Touches(changes + {ch}, row) <==> Touches(changes, row) || row == ch.row
  {
    assert ch in changes + {ch};
    forall cell | Mentions(changes, cell) ensures Mentions(changes + {ch}, cell) {
      var x :| x in changes && CellOf(x) == cell;
      assert x in changes + {ch};
    }
    forall row | Touches(changes, row) ensures Touches(changes + {ch}, row) {
      var x :| x in changes && x.row == row;
      assert x in changes + {ch};
    }
  }

  lemma ShowsRowsSame(db: Db, changes: set<Change>, ch: Change)
    requires ShowsRows(db, changes) && (Tomb(db, ch.row) || Mentions(changes, CellOf(ch)))
    ensures ShowsRows(db, changes + {ch})
  {
    OneMore(changes, ch);
    assert Tomb(db, ch.row) ==> Mentions(changes, Cell(ch.row, DELETE_CID));
    assert Mentions(changes, CellOf(ch)) ==> Touches(changes, ch.row);
    hide Mentions, Touches;
  }

  lemma ShowsCellsSame(db: Db, changes: set<Change>, ch: Change)
    requires ShowsCells(db, changes) && (Tomb(db, ch.row) || CellOf(ch) in db.clock)
    ensures ShowsCells(db, changes + {ch})
  {
    ShowsRowsSame(db, changes, ch);
    assert Tomb(db, ch.row) ==> ch.row !in db.rows;
    OneMore(changes, ch);
    hide Mentions, Touches, ShowsRows;
  }

  lemma ShowsCellsDelete(db: Db, changes: set<Change>, ch: Change, e: Entry)
    requires ShowsCells(db, changes) && ch.cid == DELETE_CID
    ensures ShowsCells(Db(db.rows - {ch.row}, db.clock[CellOf(ch) := e]), changes + {ch})
  {
    OneMore(changes, ch);
    hide Mentions, Touches;
  }

  lemma ShowsRowsWin(db: Db, changes: set<Change>, ch: Change, e: Entry)
    requires ShowsRows(db, changes) && ch.cid != DELETE_CID && !Tomb(db, ch.row)
    ensures ShowsRows(Db(SetColumn(db.rows, ch.row, ch.cid, ch.val), db.clock[CellOf(ch) := e]), changes + {ch})
  {
    OneMore(changes, ch);
    hide Mentions, Touches;
  }

  lemma ShowsColumnsWin(db: Db, changes: set<Change>, ch: Change, e: Entry)
    requires ShowsRows(db, changes) && ShowsColumns(db, changes) && ch.cid != DELETE_CID && !Tomb(db, ch.row)
    ensures ShowsColumns(Db(SetColumn(db.rows, ch.row, ch.cid, ch.val), db.clock[CellOf(ch) := e]), changes + {ch})
  {
    hide Mentions, Touches, ShowsRows;
    var rows := SetColumn(db.rows, ch.row, ch.cid, ch.val);
    OneMore(changes, ch);
    forall row, cid | row in rows ensures cid in rows[row] <==> Mentions(changes + {ch}, Cell(row, cid)) {
      if row !in db.rows { NothingMentioned(db, changes, row, cid); }
    }
  }

  lemma NothingMentioned(db: Db, changes: set<Change>, row: RowId, cid: Cid)
    requires ShowsRows(db, changes) && row !in db.rows && !Tomb(db, row)
    ensures !Mentions(changes, Cell(row, cid))
  {
    assert Mentions(changes, Cell(row, cid)) ==> Touches(changes, row);
  }

  lemma ShowsEntriesWin(db: Db, changes: set<Change>, ch: Change, e: Entry)
    requires ShowsEntries(db, changes) && ch.cid != DELETE_CID
    ensures ShowsEntries(Db(SetColumn(db.rows, ch.row, ch.cid, ch.val), db.clock[CellOf(ch) := e]), changes + {ch})
  {
    OneMore(changes, ch);
    hide Mentions, Touches;
  }

  /** The three things a merge can do. */
  lemma MergeCases(db: Db, ch: Change, next: int)
    requires CellOf(ch) in db.clock && !Tomb(db, ch.row) ==> ch.row in db.rows
    ensures Merge(db, ch, next).Ok?
    ensures var after, e := Merge(db, ch, next).value, Entry(ch.colVersion, Max(next, ch.dbVersion), Some(ch.site));
      (after == db && (Tomb(db, ch.row) || CellOf(ch) in db.clock)) ||
      (after == Db(db.rows - {ch.row}, db.clock[CellOf(ch) := e]) && ch.cid == DELETE_CID) ||
      (after == Db(SetColumn(db.rows, ch.row, ch.cid, ch.val), db.clock[CellOf(ch) := e]) &&
       ch.cid != DELETE_CID && !Tomb(db, ch.row))
  {
  }

  lemma ShowsCellsStep(db: Db, changes: set<Change>, ch: Change, next: int)
    requires ShowsCells(db, changes)
    ensures Merge(db, ch, next).Ok? && ShowsCells(Merge(db, ch, next).value, changes + {ch})
  {
    var e := Entry(ch.colVersion, Max(next, ch.dbVersion), Some(ch.site));
    if CellOf(ch) in db.clock && !Tomb(db, ch.row) { EntryRow(db, changes, CellOf(ch)); }
    hide ShowsRows, ShowsColumns, ShowsEntries, Mentions, Touches, Merge;
    MergeCases(db, ch, next);
    if Tomb(db, ch.row) || CellOf(ch) in db.clock { ShowsCellsSame(db, changes, ch); }
    if ch.cid == DELETE_CID { ShowsCellsDelete(db, changes, ch, e); }
    if ch.cid != DELETE_CID && !Tomb(db, ch.row) {
      ShowsRowsWin(db, changes, ch, e);
      ShowsColumnsWin(db, changes, ch, e);
      ShowsEntriesWin(db, changes, ch, e);
    }
  }

  /** A merge leaves every other cell as it is. */
  lemma MergeElsewhere(db: Db, ch: Change, next: int, cell: Cell)
    requires Merge(db, ch, next).Ok? && cell != CellOf(ch)
    ensures var after := Merge(db, ch, next).value;
      (cell in after.clock <==> cell in db.clock) &&
      (cell in db.clock ==> after.clock[cell] == db.clock[cell]) &&
      (cell.row in after.rows && cell.row in db.rows ==>
        Column(after, cell.row, cell.cid) == Column(db, cell.row, cell.cid)) &&
      (cell.row in after.rows && cell.row !in db.rows ==> !Tomb(db, cell.row))
  {
  }

  lemma BestKept(db: Db, changes: set<Change>, ch: Change, cell: Cell, s: Stamp)
    requires IsBest(changes, cell, s) && (CellOf(ch) == cell ==> Le(StampOfChange(ch), s))
    ensures IsBest(changes + {ch}, cell, s)
  {
    var x :| x in changes && CellOf(x) == cell && StampOfChange(x) == s;
    assert x in changes + {ch};
  }

  lemma BestReplaced(changes: set<Change>, ch: Change, s: Stamp)
    requires IsBest(changes, CellOf(ch), s) && Le(s, StampOfChange(ch))
    ensures IsBest(changes + {ch}, CellOf(ch), StampOfChange(ch))
  {
    assert ch in changes + {ch};
    forall x | x in changes && CellOf(x) == CellOf(ch) ensures Le(StampOfChange(x), StampOfChange(ch)) {
      LeTransitive(StampOfChange(x), s, StampOfChange(ch));
    }
  }

  lemma EntryRow(db: Db, changes: set<Change>, cell: Cell)
    requires ShowsCells(db, changes) && cell in db.clock && !Tomb(db, cell.row)
    ensures cell.row in db.rows
  {
    assert Mentions(changes, cell) ==> Touches(changes, cell.row);
  }

  lemma BestElsewhere(db: Db, changes: set<Change>, ch: Change, next: int, cell: Cell)
    requires ShowsCells(db, changes) && ShowsBest(db, changes) && Merge(db, ch, next).Ok? && cell != CellOf(ch)
    requires var after := Merge(db, ch, next).value; cell in after.clock && cell.row in after.rows
    ensures IsBest(changes + {ch}, cell, StampOf(Merge(db, ch, next).value, cell))
  {
    MergeElsewhere(db, ch, next, cell);
    hide IsBest, Lt, Le, Mentions, Touches, Merge;
    if cell.row !in db.rows { EntryRow(db, changes, cell); }
    BestKept(db, changes, ch, cell, StampOf(db, cell));
  }

  lemma BestMerged(db: Db, changes: set<Change>, ch: Change, next: int)
    requires ShowsBest(db, changes) && CellOf(ch) in db.clock && ch.row in db.rows
    requires !Tomb(db, ch.row) && Merge(db, ch, next).Ok?
    requires var after := Merge(db, ch, next).value; CellOf(ch) in after.clock && ch.row in after.rows
    ensures IsBest(changes + {ch}, CellOf(ch), StampOf(Merge(db, ch, next).value, CellOf(ch)))
  {
    hide IsBest, Lt, Le;
    var cell := CellOf(ch);
    assert IsBest(changes, cell, StampOf(db, cell));
    WinsIff(db, ch);
    LeTotal(StampOf(db, cell), StampOfChange(ch));
    if Le(StampOfChange(ch), StampOf(db, cell)) {
      BestKept(db, changes, ch, cell, StampOf(db, cell));
    } else {
      BestReplaced(changes, ch, StampOf(db, cell));
    }
  }

  lemma BestHere(db: Db, changes: set<Change>, ch: Change, next: int)
    requires ShowsCells(db, changes) && ShowsBest(db, changes) && Merge(db, ch, next).Ok?
    requires var after := Merge(db, ch, next).value; CellOf(ch) in after.clock && ch.row in after.rows
    ensures IsBest(changes + {ch}, CellOf(ch), StampOf(Merge(db, ch, next).value, CellOf(ch)))
  {
    hide IsBest, ShowsBest, ShowsColumns, ShowsEntries, Touches, Mentions, Lt;
    if CellOf(ch) in db.clock {
      assert !Tomb(db, ch.row);
      EntryRow(db, changes, CellOf(ch));
      BestMerged(db, changes, ch, next);
    } else {
      BestFirst(db, changes, ch);
    }
  }

  lemma ShowsBestStep(db: Db, changes: set<Change>, ch: Change, next: int)
    requires ShowsCells(db, changes) && ShowsBest(db, changes) && Merge(db, ch, next).Ok?
    ensures ShowsBest(Merge(db, ch, next).value, changes + {ch})
  {
    var after := Merge(db, ch, next).value;
    hide IsBest, ShowsCells, Merge;
    forall cell | cell in after.clock && cell.row in after.rows
      ensures IsBest(changes + {ch}, cell, StampOf(after, cell))
    {
      if cell == CellOf(ch) { BestHere(db, changes, ch, next); } else { BestElsewhere(db, changes, ch, next, cell); }
    }
  }

  lemma BestFirst(db: Db, changes: set<Change>, ch: Change)
    requires ShowsCells(db, changes) && CellOf(ch) !in db.clock && !Tomb(db, ch.row)
    ensures IsBest(changes + {ch}, CellOf(ch), StampOfChange(ch))
  {
    assert ch in changes + {ch};
    assert !Mentions(changes, CellOf(ch));
  }

  /** Deliveries in order: each change with the version its transaction writes. */
  function Deliver(db: Db, deliveries: seq<(Change, int)>): Outcome<Db> {
    if deliveries == [] then Ok(db) else
      var n := |deliveries| - 1;
      var front :- Deliver(db, deliveries[..n]);
      Merge(front, deliveries[n].0, deliveries[n].1)
  }

  function Changes(deliveries: seq<(Change, int)>): set<Change> {
    set d | d in deliveries :: d.0
  }

  lemma ChangesSplit(deliveries: seq<(Change, int)>)
    requires deliveries != []
    ensures var n := |deliveries| - 1;
      Changes(deliveries) == Changes(deliveries[..n]) + {deliveries[n].0}
  {
    assert deliveries == deliveries[..|deliveries| - 1] + [deliveries[|deliveries| - 1]];
  }

  /** Whatever is delivered to an empty database, in whatever transactions, it then reflects. */
  lemma {:induction false} DeliverReflects(deliveries: seq<(Change, int)>) returns (db: Db)
    ensures Deliver(EMPTY, deliveries) == Ok(db) && Reflects(db, Changes(deliveries))
  {
    if deliveries == [] { return EMPTY; }
    var n := |deliveries| - 1;
    var front := DeliverReflects(deliveries[..n]);
    ChangesSplit(deliveries);
    hide ShowsCells, ShowsBest, Merge, Changes;
    ShowsCellsStep(front, Changes(deliveries[..n]), deliveries[n].0, deliveries[n].1);
    ShowsBestStep(front, Changes(deliveries[..n]), deliveries[n].0, deliveries[n].1);
    db := Merge(front, deliveries[n].0, deliveries[n].1).value;
  }

  /** What a database reflects fixes its rows. */
  lemma ReflectsUnique(a: Db, b: Db, changes: set<Change>)
    requires Reflects(a, changes) && Reflects(b, changes)
    ensures a.rows == b.rows
  {
    hide IsBest, Mentions, Touches;
    forall row, cid | row in a.rows && cid in a.rows[row] ensures a.rows[row][cid] == b.rows[row][cid] {
      SameBest(a, b, changes, Cell(row, cid));
    }
    forall row | row in a.rows ensures a.rows[row] == b.rows[row] {}
  }

  lemma SameBest(a: Db, b: Db, changes: set<Change>, cell: Cell)
    requires ShowsBest(a, changes) && ShowsBest(b, changes)
    requires cell in a.clock && cell in b.clock && cell.row in a.rows && cell.row in b.rows
    ensures StampOf(a, cell) == StampOf(b, cell)
  {
    assert IsBest(changes, cell, StampOf(a, cell)) && IsBest(changes, cell, StampOf(b, cell));
    LeAntisymmetric(StampOf(a, cell), StampOf(b, cell));
  }

  /** Any two deliveries of the same changes, in any order, with any repetitions and split into
      transactions in any way, leave the same rows. */
  lemma OrderAndDuplicatesIgnored(d: seq<(Change, int)>, e: seq<(Change, int)>)
    requires Changes(d) == Changes(e)
    ensures Deliver(EMPTY, d).Ok? && Deliver(EMPTY, e).Ok?
    ensures Deliver(EMPTY, d).value.rows == Deliver(EMPTY, e).value.rows
  {
    var a := DeliverReflects(d);
    var b := DeliverReflects(e);
    ReflectsUnique(a, b, Changes(d));
  }
}
