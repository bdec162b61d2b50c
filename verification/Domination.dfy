/** When one database is at least as far as another: how local transactions and merges move a
    database forward, and what a reader of its changes has to get. */
module Domination {
  import opened Wrappers
  import opened ByteOrder
  import opened Crdt
  import opened Merging
  import opened Replica

  // ---- Moving forward ---------------------------------------------------------------------

  /** y follows x by writes whose versions lie above b: no entry is lost, entries up to b are
      untouched and keep their value, and no column falls back. */
  ghost predicate Advances(x: Db, y: Db, b: int) {
    (forall cell | cell in x.clock :: cell in y.clock) &&
    (forall cell | cell in y.clock ::
      y.clock[cell].dbVersion > b || (cell in x.clock && y.clock[cell] == x.clock[cell])) &&
    (forall cell | cell in x.clock && IsColumn(cell) && !Tomb(y, cell.row) ::
      Le(StampOf(x, cell), StampOf(y, cell)) &&
      (y.clock[cell].dbVersion <= b ==> StampOf(y, cell) == StampOf(x, cell)))
  }

  lemma AdvancesSelf(x: Db, b: int)
    ensures Advances(x, x, b)
  {
  }

  lemma AdvancesTransitive(x: Db, y: Db, z: Db, b: int)
    requires Advances(x, y, b) && Advances(y, z, b)
    ensures Advances(x, z, b)
  {
    forall cell | cell in x.clock && IsColumn(cell) && !Tomb(z, cell.row)
      ensures Le(StampOf(x, cell), StampOf(z, cell))
    {
      LeTransitive(StampOf(x, cell), StampOf(y, cell), StampOf(z, cell));
    }
  }

  /** Every change of a column value is one that the update trigger sees: the columns belong to
      the table and no value changes from or to NULL. */
  predicate Seen(db: Db, w: Write, cids: seq<Cid>) {
    w.Update? && w.row in db.rows ==>
      forall c | c in w.vals :: w.vals[c] == Column(db, w.row, c) ||
        (c in cids && SqlNotEqual(w.vals[c], Column(db, w.row, c)))
  }

  lemma InsertAdvances(db: Db, w: Write, cids: seq<Cid>, b: int)
    requires w.Insert? && RowsPresent(db) && LocalWrite(db, w, cids, b + 1).Ok?
    ensures Advances(db, LocalWrite(db, w, cids, b + 1).value, b)
  {
    hide BumpAll, Lt;
    BumpAllCells(db.clock, w.row, cids, b + 1);
  }

  lemma UpdateAdvances(db: Db, w: Write, cids: seq<Cid>, b: int)
    requires w.Update? && w.row in db.rows && TableColumns(cids) && Seen(db, w, cids)
    ensures Advances(db, LocalWrite(db, w, cids, b + 1).value, b)
  {
    hide BumpAll, Changed, Lt;
    var before, after := db.rows[w.row], db.rows[w.row] + w.vals;
    ChangedMembers(before, after, cids);
    BumpAllCells(db.clock, w.row, Changed(before, after, cids), b + 1);
  }

  lemma LocalWriteAdvances(db: Db, w: Write, cids: seq<Cid>, b: int)
    requires RowsPresent(db) && TableColumns(cids) && Seen(db, w, cids) && LocalWrite(db, w, cids, b + 1).Ok?
    ensures Advances(db, LocalWrite(db, w, cids, b + 1).value, b)
  {
    if w.Insert? { InsertAdvances(db, w, cids, b); }
    if w.Update? && w.row in db.rows { UpdateAdvances(db, w, cids, b); }
  }

  lemma MergeAdvances(db: Db, ch: Change, b: int)
    requires RowsPresent(db)
    ensures Merge(db, ch, b + 1).Ok? && Advances(db, Merge(db, ch, b + 1).value, b)
  {
    MergeSucceeds(db, ch, b + 1);
    if CellOf(ch) in db.clock && ch.row in db.rows {
      WinsIff(db, ch);
      LeTotal(StampOf(db, CellOf(ch)), StampOfChange(ch));
    }
    hide Lt, Le;
  }

  lemma AdvancesVersion(x: Db, y: Db)
    requires Advances(x, y, DbVersion(x.clock)) && forall cell | cell in y.clock :: y.clock[cell].dbVersion > 0
    ensures DbVersion(x.clock) <= DbVersion(y.clock) && DbVersion(y.clock) >= 0
  {
    var v := DbVersion(y.clock);
    assert v >= 0;
    if x.clock != map[] {
      var c :| c in x.clock && x.clock[c].dbVersion == DbVersion(x.clock);
      assert c in y.clock && y.clock[c].dbVersion <= v;
      assert y.clock[c].dbVersion > DbVersion(x.clock) || y.clock[c] == x.clock[c];
    }
  }

  lemma AdvancesNonempty(x: Db, y: Db)
    requires Advances(x, y, DbVersion(x.clock)) && x.clock != map[]
    ensures y.clock != map[] && DbVersion(x.clock) <= DbVersion(y.clock)
  {
    var c :| c in x.clock && x.clock[c].dbVersion == DbVersion(x.clock);
    assert c in y.clock && y.clock[c].dbVersion <= DbVersion(y.clock);
  }

  // ---- What one database holds of another -------------------------------------------------

  /** j has what an entry of i stands for: a deleted row stays deleted, and a live column is at
      least as good. */
  ghost predicate Covered(j: Db, i: Db, cell: Cell)
    requires cell in i.clock
  {
    Tomb(j, cell.row) ||
    (IsColumn(cell) && (Tomb(i, cell.row) || (cell in j.clock && Le(StampOf(i, cell), StampOf(j, cell)))))
  }

  /** j has everything that happened at i up to a version. */
  ghost predicate Dominates(j: Db, i: Db, upto: int) {
    forall cell | cell in i.clock && i.clock[cell].dbVersion <= upto :: Covered(j, i, cell)
  }

  /** A database has taken in a change. */
  ghost predicate Absorbed(db: Db, ch: Change) {
    Tomb(db, ch.row) ||
    (ch.cid != DELETE_CID && CellOf(ch) in db.clock && Le(StampOfChange(ch), StampOf(db, CellOf(ch))))
  }

  /** Whoever takes in the change has what the entry of i stands for. */
  ghost predicate Answers(ch: Change, i: Db, cell: Cell)
    requires cell in i.clock
  {
    ch.row == cell.row &&
    (ch.cid == DELETE_CID ||
     (ch.cid == cell.cid && (Tomb(i, cell.row) || Le(StampOf(i, cell), StampOfChange(ch)))))
  }

  lemma CoveredStays(j: Db, j2: Db, b: int, i: Db, i2: Db, cell: Cell)
    requires Advances(j, j2, b) && Advances(i, i2, DbVersion(i.clock))
    requires cell in i.clock && cell in i2.clock && i2.clock[cell].dbVersion <= DbVersion(i.clock)
    requires Covered(j, i, cell)
    ensures Covered(j2, i2, cell)
  {
    if !Tomb(j2, cell.row) && IsColumn(cell) && !Tomb(i2, cell.row) {
      LeTransitive(StampOf(i, cell), StampOf(j, cell), StampOf(j2, cell));
    }
  }

  lemma DominatesStays(j: Db, j2: Db, b: int, i: Db, i2: Db, upto: int)
    requires Advances(j, j2, b) && Advances(i, i2, DbVersion(i.clock))
    requires upto <= DbVersion(i.clock) && Dominates(j, i, upto)
    ensures Dominates(j2, i2, upto)
  {
    forall cell | cell in i2.clock && i2.clock[cell].dbVersion <= upto ensures Covered(j2, i2, cell) {
      assert cell in i.clock && i2.clock[cell] == i.clock[cell];
      CoveredStays(j, j2, b, i, i2, cell);
    }
  }

  lemma AbsorbedStays(x: Db, y: Db, b: int, ch: Change)
    requires Advances(x, y, b) && Absorbed(x, ch)
    ensures Absorbed(y, ch)
  {
    if !Tomb(y, ch.row) { LeTransitive(StampOfChange(ch), StampOf(x, CellOf(ch)), StampOf(y, CellOf(ch))); }
  }

  lemma AnswersStays(ch: Change, i: Db, i2: Db, cell: Cell)
    requires Advances(i, i2, DbVersion(i.clock))
    requires cell in i.clock && cell in i2.clock && i2.clock[cell].dbVersion <= DbVersion(i.clock)
    requires Answers(ch, i, cell)
    ensures Answers(ch, i2, cell)
  {
  }

  lemma AnswerCovers(j: Db, ch: Change, i: Db, cell: Cell)
    requires cell in i.clock && Answers(ch, i, cell) && Absorbed(j, ch)
    ensures Covered(j, i, cell)
  {
    if ch.cid != DELETE_CID && !Tomb(i, cell.row) && !Tomb(j, cell.row) {
      LeTransitive(StampOf(i, cell), StampOfChange(ch), StampOf(j, cell));
    }
  }

  // ---- A transaction of merges ------------------------------------------------------------

  lemma MergeAbsorbs(db: Db, ch: Change, next: int)
    requires RowsPresent(db)
    ensures Merge(db, ch, next).Ok? && Absorbed(Merge(db, ch, next).value, ch)
  {
    MergeSucceeds(db, ch, next);
    if CellOf(ch) in db.clock && ch.row in db.rows { WinsIff(db, ch); }
    hide Lt;
  }

  /** Merging a message moves the database forward and takes in every change of it. */
  lemma {:induction false} MergeAllAbsorbs(db: Db, changes: seq<Change>, b: int)
    requires RowsPresent(db)
    ensures MergeAll(db, changes, b + 1).Ok? && RowsPresent(MergeAll(db, changes, b + 1).value)
    ensures Advances(db, MergeAll(db, changes, b + 1).value, b)
    ensures forall ch | ch in changes :: Absorbed(MergeAll(db, changes, b + 1).value, ch)
  {
    hide Advances, Absorbed, RowsPresent, Merge;
    if changes == [] {
      AdvancesSelf(db, b);
    } else {
      var n := |changes| - 1;
      MergeAllAbsorbs(db, changes[..n], b);
      var front := MergeAll(db, changes[..n], b + 1).value;
      MergeSucceeds(front, changes[n], b + 1);
      MergeAdvances(front, changes[n], b);
      MergeAbsorbs(front, changes[n], b + 1);
      var after := Merge(front, changes[n], b + 1).value;
      AdvancesTransitive(db, front, after, b);
      forall ch | ch in changes ensures Absorbed(after, ch) {
        if ch != changes[n] {
          assert ch in changes[..n];
          AbsorbedStays(front, after, b, ch);
        }
      }
    }
  }

  // ---- Delta pulls ------------------------------------------------------------------------

  /** What an entry of a database reads as answers for it. */
  lemma ReadAnswers(i: Db, self: Site, cell: Cell)
    requires RowsPresent(i) && cell in i.clock
    ensures Answers(ReadEntry(i, self, cell), i, cell)
  {
  }

  /** Pulling everything newer than a version that the puller has, deletes included and without a
      site filter, leaves the puller with all of the source: every row deleted there is deleted,
      every live column is at least as good. */
  lemma PullDominates(j: Db, i: Db, self: Site, since: int, changes: seq<Change>)
    requires RowsPresent(j) && RowsPresent(i) && Dominates(j, i, since)
    requires (set ch | ch in changes) == ReadSet(i, self, since, None)
    ensures var next := DbVersion(j.clock) + 1;
      MergeAll(j, changes, next).Ok? && Dominates(MergeAll(j, changes, next).value, i, DbVersion(i.clock))
  {
    hide MergeAll, Advances, Absorbed, RowsPresent, ReadEntry, Answers, Covered;
    var b := DbVersion(j.clock);
    MergeAllAbsorbs(j, changes, b);
    AdvancesSelf(i, DbVersion(i.clock));
    var after := MergeAll(j, changes, b + 1).value;
    forall cell | cell in i.clock && i.clock[cell].dbVersion <= DbVersion(i.clock)
      ensures Covered(after, i, cell)
    {
      if i.clock[cell].dbVersion <= since {
        CoveredStays(j, after, b, i, i, cell);
      } else {
        ReadAnswers(i, self, cell);
        assert Selected(i, cell, since, None);
        assert ReadEntry(i, self, cell) in ReadSet(i, self, since, None);
        assert ReadEntry(i, self, cell) in changes;
        AnswerCovers(after, ReadEntry(i, self, cell), i, cell);
      }
    }
  }
}
