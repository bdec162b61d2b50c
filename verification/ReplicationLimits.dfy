/** Where replication stops, exactly: updates from or to NULL, rows inserted again after a delete,
    and deletes that a site filter hides. */
module ReplicationLimits {
  import opened Wrappers
  import opened Crdt
  import opened Merging
  import opened Replica
  import opened Domination

  // ---- Updates from or to NULL ------------------------------------------------------------

  /** Every column whose value changed is there to read, newer than b. */
  ghost predicate ChangesReadable(db: Db, after: Db, row: RowId, b: int) {
    forall c | Column(after, row, c) != Column(db, row, c) :: Selected(after, Cell(row, c), b, None)
  }

  /** Peers that read on from the version before can learn of every column an update changed exactly
      when its trigger sees all of them. Then the update moves the database forward, and where the
      columns of a live row have entries, only then. */
  lemma UpdateAdvancesIff(db: Db, w: Write, cids: seq<Cid>, b: int)
    requires w.Update? && w.row in db.rows && TableColumns(cids)
    requires forall cell | cell in db.clock :: db.clock[cell].dbVersion <= b
    ensures var after := LocalWrite(db, w, cids, b + 1).value;
      (ChangesReadable(db, after, w.row, b) <==> Seen(db, w, cids)) &&
      (Seen(db, w, cids) ==> Advances(db, after, b)) &&
      (HaveEntries(db, w) && Advances(db, after, b) ==> Seen(db, w, cids))
  {
    hide Seen, Advances, LocalWrite, ChangesReadable;
    if Seen(db, w, cids) {
      UpdateAdvances(db, w, cids, b);
      SeenReadable(db, w, cids, b);
    } else {
      UpdateUnseen(db, w, cids, b);
    }
  }

  /** The row is not deleted, and every column the update names has an entry. */
  ghost predicate HaveEntries(db: Db, w: Write)
    requires w.Update?
  {
    !Tomb(db, w.row) && forall c | c in w.vals :: c != DELETE_CID && Cell(w.row, c) in db.clock
  }

  lemma SeenReadable(db: Db, w: Write, cids: seq<Cid>, b: int)
    requires w.Update? && w.row in db.rows && Seen(db, w, cids)
    ensures ChangesReadable(db, LocalWrite(db, w, cids, b + 1).value, w.row, b)
  {
    hide BumpAll, Changed;
    var before, vals := db.rows[w.row], db.rows[w.row] + w.vals;
    ChangedMembers(before, vals, cids);
    BumpAllCells(db.clock, w.row, Changed(before, vals, cids), b + 1);
  }

  lemma UpdateUnseen(db: Db, w: Write, cids: seq<Cid>, b: int)
    requires w.Update? && w.row in db.rows && TableColumns(cids) && !Seen(db, w, cids)
    requires forall cell | cell in db.clock :: db.clock[cell].dbVersion <= b
    ensures !ChangesReadable(db, LocalWrite(db, w, cids, b + 1).value, w.row, b)
    ensures HaveEntries(db, w) ==> !Advances(db, LocalWrite(db, w, cids, b + 1).value, b)
  {
    hide BumpAll, Changed;
    var before, vals := db.rows[w.row], db.rows[w.row] + w.vals;
    var after := LocalWrite(db, w, cids, b + 1).value;
    ChangedMembers(before, vals, cids);
    BumpAllCells(db.clock, w.row, Changed(before, vals, cids), b + 1);
    var c :| c in w.vals && w.vals[c] != Column(db, w.row, c) &&
      !(c in cids && SqlNotEqual(w.vals[c], Column(db, w.row, c)));
    var cell := Cell(w.row, c);
    assert Column(after, w.row, c) == w.vals[c] && !Selected(after, cell, b, None);
    if HaveEntries(db, w) {
      assert cell in after.clock && after.clock[cell] == db.clock[cell] && !Tomb(after, w.row);
      assert StampOf(after, cell) != StampOf(db, cell);
    }
  }

  lemma {:induction false} NoneChanged(before: Values, after: Values, cids: seq<Cid>)
    requires forall c | c in cids :: !SqlNotEqual(ValueOf(after, c), ValueOf(before, c))
    ensures Changed(before, after, cids) == []
  {
    if cids != [] { NoneChanged(before, after, cids[..|cids| - 1]); }
  }

  /** Setting a column to NULL is such an update: nothing newer is there to read. */
  lemma NullUpdateUnread(db: Db, self: Site, row: RowId, cid: Cid, cids: seq<Cid>)
    requires row in db.rows && Column(db, row, cid) != NULL
    ensures var after := LocalWrite(db, Update(row, map[cid := NULL]), cids, DbVersion(db.clock) + 1).value;
      Column(after, row, cid) == NULL && ReadSet(after, self, DbVersion(db.clock), None) == {}
  {
    NoneChanged(db.rows[row], db.rows[row] + map[cid := NULL], cids);
  }

  // ---- Rows inserted again after a delete -------------------------------------------------

  lemma {:induction false} TombSource(db: Db, changes: seq<Change>, next: int, row: RowId)
    requires RowsPresent(db) && !Tomb(db, row) && forall ch | ch in changes :: ch.row == row ==> ch.cid != DELETE_CID
    ensures MergeAll(db, changes, next).Ok? && RowsPresent(MergeAll(db, changes, next).value)
    ensures !Tomb(MergeAll(db, changes, next).value, row)
  {
    if changes != [] {
      var n := |changes| - 1;
      TombSource(db, changes[..n], next, row);
      MergeSucceeds(MergeAll(db, changes[..n], next).value, changes[n], next);
    }
  }

  ghost predicate DeletedGone(db: Db) {
    forall row | row in db.rows :: !Tomb(db, row)
  }

  lemma {:induction false} MergesKeepGone(db: Db, changes: seq<Change>, next: int)
    requires RowsPresent(db) && DeletedGone(db)
    ensures MergeAll(db, changes, next).Ok? && RowsPresent(MergeAll(db, changes, next).value)
    ensures DeletedGone(MergeAll(db, changes, next).value)
  {
    if changes != [] {
      var n := |changes| - 1;
      MergesKeepGone(db, changes[..n], next);
      MergeSucceeds(MergeAll(db, changes[..n], next).value, changes[n], next);
    }
  }

  /** What a database with a live row reads never deletes the row. */
  lemma LiveRowReads(i: Db, self: Site, row: RowId, ch: Change)
    requires row in i.rows && !Tomb(i, row) && ch in ReadSet(i, self, 0, None) && ch.row == row
    ensures ch.cid != DELETE_CID
  {
    var cell :| cell in i.clock && ch == ReadEntry(i, self, cell);
  }

  lemma Inserted(i: Db, row: RowId, vals: Values, cids: seq<Cid>) returns (after: Db)
    requires RowsPresent(i) && row !in i.rows && cids != [] && TableColumns(cids)
    requires forall cell | cell in i.clock :: i.clock[cell].dbVersion > 0
    ensures LocalWrite(i, Insert(row, vals), cids, DbVersion(i.clock) + 1) == Ok(after) && RowsPresent(after)
    ensures (forall cell | cell in after.clock :: after.clock[cell].dbVersion > 0)
    ensures row in after.rows && (Tomb(after, row) <==> Tomb(i, row)) && Cell(row, cids[0]) in after.clock
  {
    hide BumpAll, RowsPresent;
    assert i.clock != map[] ==> exists c :: c in i.clock && i.clock[c].dbVersion == DbVersion(i.clock);
    LocalWriteKeepsRows(i, Insert(row, vals), cids, DbVersion(i.clock) + 1);
    LocalWriteVersions(i, Insert(row, vals), cids, DbVersion(i.clock) + 1);
    BumpAllCells(i.clock, row, cids, DbVersion(i.clock) + 1);
    assert cids[0] in cids;
    after := LocalWrite(i, Insert(row, vals), cids, DbVersion(i.clock) + 1).value;
  }

  /** A row that i inserts is there at a replica that pulls all of i exactly when neither of them
      ever deleted it before: a tombstone stays and blocks it. */
  lemma InsertArrivesIff(i: Db, self: Site, row: RowId, vals: Values, cids: seq<Cid>, j: Db, changes: seq<Change>)
    requires RowsPresent(i) && RowsPresent(j) && DeletedGone(j)
    requires row !in i.rows && cids != [] && TableColumns(cids)
    requires forall cell | cell in i.clock :: i.clock[cell].dbVersion > 0
    requires (set ch | ch in changes) ==
      ReadSet(LocalWrite(i, Insert(row, vals), cids, DbVersion(i.clock) + 1).value, self, 0, None)
    ensures var merged := MergeAll(j, changes, DbVersion(j.clock) + 1);
      merged.Ok? && (row in merged.value.rows <==> !Tomb(i, row) && !Tomb(j, row))
  {
    hide LocalWrite, MergeAll, ReadSet, RowsPresent, Advances, Absorbed;
    var i2 := Inserted(i, row, vals, cids);
    PullDominates(j, i2, self, 0, changes);
    MergesKeepGone(j, changes, DbVersion(j.clock) + 1);
    MergeAllAbsorbs(j, changes, DbVersion(j.clock));
    var j2 := MergeAll(j, changes, DbVersion(j.clock) + 1).value;
    assert Covered(j2, i2, Cell(row, cids[0]));
    if Tomb(j, row) {
      TombStays(j, j2, DbVersion(j.clock), row);
    } else if Tomb(i, row) {
      assert Covered(j2, i2, Cell(row, DELETE_CID));
    } else {
      forall ch | ch in changes && ch.row == row ensures ch.cid != DELETE_CID {
        assert ch in (set x | x in changes);
        LiveRowReads(i2, self, row, ch);
      }
      TombSource(j, changes, DbVersion(j.clock) + 1, row);
      ColumnHasRow(j2, Cell(row, cids[0]));
    }
  }

  lemma TombStays(x: Db, y: Db, b: int, row: RowId)
    requires Advances(x, y, b) && Tomb(x, row)
    ensures Tomb(y, row)
  {
  }

  lemma ColumnHasRow(db: Db, cell: Cell)
    requires RowsPresent(db) && cell in db.clock && IsColumn(cell) && !Tomb(db, cell.row)
    ensures cell.row in db.rows
  {
  }

  // ---- Deletes that a site filter hides ---------------------------------------------------

  /** Among the changes of a message, the first delete of a row leaves its column version and its site
      on the tombstone. */
  lemma {:induction false} FirstDeleteSigns(db: Db, changes: seq<Change>, next: int, row: RowId, k: nat)
    requires RowsPresent(db) && !Tomb(db, row) && k < |changes|
    requires changes[k].row == row && changes[k].cid == DELETE_CID
    requires forall m | 0 <= m < k :: changes[m].row == row ==> changes[m].cid != DELETE_CID
    ensures MergeAll(db, changes, next).Ok? && RowsPresent(MergeAll(db, changes, next).value)
    ensures var clock, cell := MergeAll(db, changes, next).value.clock, Cell(row, DELETE_CID);
      cell in clock &&
      clock[cell] == Entry(changes[k].colVersion, Max(next, changes[k].dbVersion), Some(changes[k].site))
  {
    hide Merge, RowsPresent, Tomb;
    var n := |changes| - 1;
    if k == n {
      TombSource(db, changes[..n], next, row);
      DeleteSigns(MergeAll(db, changes[..n], next).value, changes[n], next);
    } else {
      FirstDeleteSigns(db, changes[..n], next, row, k);
      TombKept(MergeAll(db, changes[..n], next).value, changes[n], next, row);
    }
  }

  lemma DeleteSigns(db: Db, ch: Change, next: int)
    requires RowsPresent(db) && !Tomb(db, ch.row) && ch.cid == DELETE_CID
    ensures Merge(db, ch, next).Ok? && RowsPresent(Merge(db, ch, next).value)
    ensures var clock := Merge(db, ch, next).value.clock;
      CellOf(ch) in clock && clock[CellOf(ch)] == Entry(ch.colVersion, Max(next, ch.dbVersion), Some(ch.site))
  {
    MergeSucceeds(db, ch, next);
  }

  lemma TombKept(db: Db, ch: Change, next: int, row: RowId)
    requires RowsPresent(db) && Cell(row, DELETE_CID) in db.clock
    ensures Merge(db, ch, next).Ok? && RowsPresent(Merge(db, ch, next).value)
    ensures var clock, cell := Merge(db, ch, next).value.clock, Cell(row, DELETE_CID);
      cell in clock && clock[cell] == db.clock[cell]
  {
    MergeSucceeds(db, ch, next);
  }

  /** Whoever pulls a delete keeps the column version of the entry that told it, be it the tombstone or
      a column entry of the row that is gone. */
  lemma PulledDelete(i: Db, self: Site, since: int, who: Option<Site>, j: Db, changes: seq<Change>, next: int,
    row: RowId, k: nat)
    returns (cell: Cell)
    requires RowsPresent(j) && !Tomb(j, row) && (set ch | ch in changes) == ReadSet(i, self, since, who)
    requires k < |changes| && changes[k].row == row && changes[k].cid == DELETE_CID
    requires forall m | 0 <= m < k :: changes[m].row == row ==> changes[m].cid != DELETE_CID
    ensures MergeAll(j, changes, next).Ok?
    ensures cell in i.clock && cell.row == row && (cell.cid == DELETE_CID || row !in i.rows)
    ensures changes[k] == ReadEntry(i, self, cell)
    ensures var e, clock, tomb := i.clock[cell], MergeAll(j, changes, next).value.clock, Cell(row, DELETE_CID);
      tomb in clock && clock[tomb].colVersion == e.colVersion && clock[tomb].dbVersion == Max(next, e.dbVersion)
  {
    hide MergeAll, RowsPresent, Tomb, Selected;
    FirstDeleteSigns(j, changes, next, row, k);
    assert changes[k] in ReadSet(i, self, since, who);
    cell :| cell in i.clock && Selected(i, cell, since, who) && ReadEntry(i, self, cell) == changes[k];
    ReadFields(i, self, cell);
  }

  /** A replica that learned of a delete passes it on to a requestor exactly when the first change
      that told it does not carry the requestor's site. That change may be a mere column entry of
      the deleted row. */
  lemma DeletePassedOnIff(db: Db, changes: seq<Change>, row: RowId, k: nat, requestor: Site, since: int)
    requires RowsPresent(db) && !Tomb(db, row) && k < |changes| && since <= DbVersion(db.clock)
    requires changes[k].row == row && changes[k].cid == DELETE_CID
    requires forall m | 0 <= m < k :: changes[m].row == row ==> changes[m].cid != DELETE_CID
    ensures var merged := MergeAll(db, changes, DbVersion(db.clock) + 1);
      merged.Ok? &&
      (Selected(merged.value, Cell(row, DELETE_CID), since, Some(requestor)) <==> changes[k].site != requestor)
  {
    FirstDeleteSigns(db, changes, DbVersion(db.clock) + 1, row, k);
  }

  /** A database that merged a row with one column by `author`, and then deleted the row. */
  function DeletedRow(row: RowId, cid: Cid, val: string, author: Site): Db
    requires cid != DELETE_CID
  {
    var merged := Merge(EMPTY, Change(row, cid, val, 1, 1, author), DbVersion(EMPTY.clock) + 1).value;
    LocalWrite(merged, Delete(row), [cid], DbVersion(merged.clock) + 1).value
  }

  lemma DeletedRowClock(row: RowId, cid: Cid, val: string, author: Site)
    requires cid != DELETE_CID
    ensures DeletedRow(row, cid, val, author) ==
      Db(map[], map[Cell(row, cid) := Entry(1, 1, Some(author)), Cell(row, DELETE_CID) := Entry(1, 2, None)])
  {
    var merged := Merge(EMPTY, Change(row, cid, val, 1, 1, author), DbVersion(EMPTY.clock) + 1).value;
    assert merged.clock == map[Cell(row, cid) := Entry(1, 1, Some(author))];
    assert Cell(row, cid) in merged.clock && DbVersion(merged.clock) == 1;
  }

  /** So a delete can be lost on the way to the author of the row: `relay` pulls the deleted row,
      reads its old entry as the delete, and keeps nothing for the author. */
  lemma RelayedDeleteHidden(row: RowId, cid: Cid, val: string, author: Site, deleter: Site)
    requires cid != DELETE_CID && author != deleter
    ensures var source := DeletedRow(row, cid, val, author);
      Cell(row, cid) in source.clock && Cell(row, DELETE_CID) in source.clock &&
      var message := [ReadEntry(source, deleter, Cell(row, cid)), ReadEntry(source, deleter, Cell(row, DELETE_CID))];
      (set ch | ch in message) == ReadSet(source, deleter, 0, None) &&
      (var relay := MergeAll(EMPTY, message, DbVersion(EMPTY.clock) + 1);
       relay.Ok? && Tomb(relay.value, row) && ReadSet(relay.value, "relay", 0, Some(author)) == {})
  {
    hide DeletedRow;
    DeletedRowClock(row, cid, val, author);
    var source := DeletedRow(row, cid, val, author);
    var message := [ReadEntry(source, deleter, Cell(row, cid)), ReadEntry(source, deleter, Cell(row, DELETE_CID))];
    assert forall ch | ch in ReadSet(source, deleter, 0, None) :: ch in message;
    assert message[..1] == [message[0]] && message[..1][..0] == [];
    assert MergeAll(EMPTY, message[..1], 1) == Merge(EMPTY, message[0], 1);
  }
}
