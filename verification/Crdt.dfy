/** The replicated state of one database and what each statement does to it: rows, and a clock
    entry for every column and every deleted row. */
module Crdt {
  import opened Wrappers
  import opened ByteOrder

  type Cid = string
  type Site = string

  /** A row of a table, named by its quote-concatenated primary key. */
  datatype RowId = RowId(tbl: string, pk: string)

  datatype Cell = Cell(row: RowId, cid: Cid)

  /** A clock entry; no site means that this database made it. */
  datatype Entry = Entry(colVersion: int, dbVersion: int, site: Option<Site>)

  /** Stored values as `quote()` prints them. A column that is not stored holds its default, NULL. */
  type Values = map<Cid, string>

  datatype Db = Db(rows: map<RowId, Values>, clock: map<Cell, Entry>)

  /** A row of `crsql_changes`. */
  datatype Change = Change(row: RowId, cid: Cid, val: string, colVersion: int, dbVersion: int, site: Site)

  const DELETE_CID: Cid := "__crsql_del"
  const NULL := "NULL"
  const EMPTY := Db(map[], map[])

  function Max(a: int, b: int): int {
    if a < b then b else a
  }

  predicate Tomb(db: Db, row: RowId) {
    Cell(row, DELETE_CID) in db.clock
  }

  function Column(db: Db, row: RowId, cid: Cid): string {
    if row in db.rows && cid in db.rows[row] then db.rows[row][cid] else NULL
  }

  // ---- The version of a database ----------------------------------------------------------

  function Versions(clock: map<Cell, Entry>): set<int> {
    set c | c in clock :: clock[c].dbVersion
  }

  lemma {:induction false} MaxExists(vs: set<int>, x: int)
    requires x in vs
    ensures exists v :: v in vs && forall w | w in vs :: w <= v
    decreases set w | w in vs && w > x
  {
    if y :| y in vs && y > x {
      var above := set w | w in vs && w > x;
      assert y in above && (set w | w in vs && w > y) <= above - {y};
      MaxExists(vs, y);
    }
  }

  /** The largest db_version in the clock, or 0. */
  function DbVersion(clock: map<Cell, Entry>): (v: int)
    ensures forall c | c in clock :: clock[c].dbVersion <= v
    ensures if clock == map[] then v == 0 else exists c | c in clock :: clock[c].dbVersion == v
  {
    if clock == map[] then 0 else
      var c :| c in clock;
      assert clock[c].dbVersion in Versions(clock);
      MaxExists(Versions(clock), clock[c].dbVersion);
      var v :| v in Versions(clock) && forall w | w in Versions(clock) :: w <= v;
      assert forall c | c in clock :: clock[c].dbVersion in Versions(clock);
      v
  }

  // ---- Local writes -----------------------------------------------------------------------

  /** What a trigger does to one clock entry. */
  function Bump(clock: map<Cell, Entry>, cell: Cell, next: int): map<Cell, Entry> {
    clock[cell := Entry(if cell in clock then clock[cell].colVersion + 1 else 1, next, None)]
  }

  /** What the sub-triggers do for a list of columns, one after the other. */
  function BumpAll(clock: map<Cell, Entry>, row: RowId, cids: seq<Cid>, next: int): map<Cell, Entry> {
    if cids == [] then clock else
      var n := |cids| - 1;
      Bump(BumpAll(clock, row, cids[..n], next), Cell(row, cids[n]), next)
  }

  /** SQL's `!=` under a WHERE: unknown, so not taken, when a side is NULL. */
  predicate SqlNotEqual(a: string, b: string) {
    a != NULL && b != NULL && a != b
  }

  /** The columns whose update trigger fires. */
  function Changed(before: Values, after: Values, cids: seq<Cid>): seq<Cid> {
    if cids == [] then [] else
      var n := |cids| - 1;
      var front := Changed(before, after, cids[..n]);
      if SqlNotEqual(ValueOf(after, cids[n]), ValueOf(before, cids[n])) then front + [cids[n]] else front
  }

  function ValueOf(vals: Values, cid: Cid): string {
    if cid in vals then vals[cid] else NULL
  }

  datatype Write =
    | Insert(row: RowId, vals: Values)
    | Update(row: RowId, vals: Values)
    | Delete(row: RowId)

  /** A full row for an INSERT: columns that are not given get NULL. */
  function FullRow(vals: Values, cids: seq<Cid>): Values {
    map c | c in cids :: ValueOf(vals, c)
  }

  /** One INSERT, UPDATE or DELETE with its trigger; `cids` are the non-key columns of the table. */
  function LocalWrite(db: Db, w: Write, cids: seq<Cid>, next: int): Outcome<Db> {
    match w
    case Insert(row, vals) =>
      if row in db.rows then Err("UNIQUE constraint failed")
      else Ok(Db(db.rows[row := FullRow(vals, cids)], BumpAll(db.clock, row, cids, next)))
    case Update(row, vals) =>
      if row !in db.rows then Ok(db)
      else
        var after := db.rows[row] + vals;
        Ok(Db(db.rows[row := after], BumpAll(db.clock, row, Changed(db.rows[row], after, cids), next)))
    case Delete(row) =>
      if row !in db.rows then Ok(db)
      else Ok(Db(db.rows - {row}, Bump(db.clock, Cell(row, DELETE_CID), next)))
  }

  // ---- Merging a remote change ------------------------------------------------------------

  /** `crsql_didCidWin` */
  function DidCidWin(db: Db, ch: Change): Outcome<bool> {
    var cell := Cell(ch.row, ch.cid);
    if cell !in db.clock then Ok(true)
    else if ch.colVersion > db.clock[cell].colVersion then Ok(true)
    else if ch.colVersion < db.clock[cell].colVersion then Ok(false)
    else if ch.row !in db.rows then Err("could not find row to merge with")
    else Ok(Lt(Column(db, ch.row, ch.cid), ch.val))
  }

  /** `crsql_setWinnerClock` */
  function SetWinnerClock(clock: map<Cell, Entry>, ch: Change, next: int): map<Cell, Entry> {
    clock[Cell(ch.row, ch.cid) := Entry(ch.colVersion, Max(next, ch.dbVersion), Some(ch.site))]
  }

  /** The row write of a winning column change. */
  function SetColumn(rows: map<RowId, Values>, row: RowId, cid: Cid, val: string): map<RowId, Values> {
    rows[row := (if row in rows then rows[row] else map[])[cid := val]]
  }

  /** `crsql_mergeInsert`, for a delete or a change of a known column. */
  function Merge(db: Db, ch: Change, next: int): Outcome<Db> {
    if Tomb(db, ch.row) then Ok(db)
    else if ch.cid == DELETE_CID then Ok(Db(db.rows - {ch.row}, SetWinnerClock(db.clock, ch, next)))
    else
      var win :- DidCidWin(db, ch);
      if !win then Ok(db)
      else Ok(Db(SetColumn(db.rows, ch.row, ch.cid, ch.val), SetWinnerClock(db.clock, ch, next)))
  }

  // ---- Reading changes --------------------------------------------------------------------

  /** A clock entry as a row of `crsql_changes`: without its row it reads as a delete, and an
      entry of this database carries its own site id. */
  function ReadEntry(db: Db, self: Site, cell: Cell): Change
    requires cell in db.clock
  {
    var e := db.clock[cell];
    var site := if e.site.Some? then e.site.value else self;
    if cell.cid == DELETE_CID || cell.row !in db.rows then
      Change(cell.row, DELETE_CID, NULL, e.colVersion, e.dbVersion, site)
    else
      Change(cell.row, cell.cid, Column(db, cell.row, cell.cid), e.colVersion, e.dbVersion, site)
  }

  /** The entries a query on `crsql_changes` selects: newer than `since` and, with a requestor,
      not recorded as coming from it. */
  predicate Selected(db: Db, cell: Cell, since: int, requestor: Option<Site>) {
    cell in db.clock && db.clock[cell].dbVersion > since && (requestor.Some? ==> db.clock[cell].site != requestor)
  }

  function ReadSet(db: Db, self: Site, since: int, requestor: Option<Site>): set<Change> {
    set cell | cell in db.clock && Selected(db, cell, since, requestor) :: ReadEntry(db, self, cell)
  }
}
