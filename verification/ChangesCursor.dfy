/** The cursor of the `crsql_changes` virtual table: a statement over the clock tables, ordered
    by version and table, and for each of its rows a look at the row of the base table. */
module ChangesCursor {
  import opened Wrappers
  import opened ByteOrder
  import opened Crdt

  /** ORDER BY db_vrsn, tbl */
  predicate InOrder(db: Db, a: Cell, b: Cell)
    requires a in db.clock && b in db.clock
  {
    var x, y := db.clock[a].dbVersion, db.clock[b].dbVersion;
    x < y || (x == y && (a.row.tbl == b.row.tbl || Lt(a.row.tbl, b.row.tbl)))
  }

  lemma InOrderTotal(db: Db, a: Cell, b: Cell)
    requires a in db.clock && b in db.clock
    ensures InOrder(db, a, b) || InOrder(db, b, a)
  {
    LtTotal(a.row.tbl, b.row.tbl);
  }

  lemma InOrderTransitive(db: Db, a: Cell, b: Cell, c: Cell)
    requires a in db.clock && b in db.clock && c in db.clock && InOrder(db, a, b) && InOrder(db, b, c)
    ensures InOrder(db, a, c)
  {
    var x, y, z := a.row.tbl, b.row.tbl, c.row.tbl;
    if Lt(x, y) && Lt(y, z) { LtTransitive(x, y, z); }
  }

  predicate IsFirst(db: Db, cells: set<Cell>, c: Cell)
    requires forall x | x in cells :: x in db.clock
  {
    c in cells && forall x | x in cells :: InOrder(db, c, x)
  }

  lemma {:induction false} FirstExists(db: Db, cells: set<Cell>)
    requires cells != {} && forall x | x in cells :: x in db.clock
    ensures exists c :: IsFirst(db, cells, c)
    decreases |cells|
  {
    var c :| c in cells;
    var rest := cells - {c};
    InOrderTotal(db, c, c);
    if rest == {} {
      assert cells == {c};
      assert IsFirst(db, cells, c);
    } else {
      FirstExists(db, rest);
      var d :| IsFirst(db, rest, d);
      hide InOrder;
      InOrderTotal(db, c, d);
      if InOrder(db, c, d) {
        forall x | x in cells ensures InOrder(db, c, x) {
          if x != c { InOrderTransitive(db, c, d, x); }
        }
        assert IsFirst(db, cells, c);
      } else {
        assert IsFirst(db, cells, d);
      }
    }
  }

  class ChangesCursor {
    /** The snapshot the transaction reads, and its site id. */
    const db: Db
    const self: Site

    /** What the statement has not returned yet; none before `Filter`. */
    var pending: set<Cell>
    /** The row the cursor stands on; none at the end. */
    var current: Option<Cell>
    /** Whether the base table has the row: `pRowStmt`. */
    var rowFound: bool
    var dbVersion: int

    ghost predicate Valid()
      reads this
    {
      (forall c | c in pending :: c in db.clock) &&
      (current.Some? ==>
        current.value in db.clock && dbVersion == db.clock[current.value].dbVersion &&
        (rowFound <==> current.value.cid != DELETE_CID && current.value.row in db.rows))
    }

    constructor (db: Db, self: Site)
      ensures Valid() && this.db == db && this.self == self && current == None && pending == {}
    {
      this.db, this.self := db, self;
      pending, current, rowFound, dbVersion := {}, None, false, 0;
    }

    /** `changesNext`: steps the statement, then fetches the row of the base table. */
    method Next()
      requires Valid()
      modifies this
      ensures Valid()
      ensures old(pending) == {} ==> current == None && pending == {}
      ensures old(pending) != {} ==>
        current.Some? && IsFirst(db, old(pending), current.value) && pending == old(pending) - {current.value}
    {
      if pending == {} {
        current := None;
        return;
      }
      FirstExists(db, pending);
      var cell :| IsFirst(db, pending, cell);
      current, pending := Some(cell), pending - {cell};
      dbVersion := db.clock[cell].dbVersion;
      rowFound := false;
      if cell.cid != DELETE_CID && cell.row in db.rows { rowFound := true; }
    }

    /** `changesFilter`: without a version bound everything counts, and without a requestor the
        site bound is one that no entry has. */
    method Filter(since: int, requestor: Option<Site>)
      requires Valid()
      modifies this
      ensures Valid()
      ensures var all := set c | c in db.clock && Selected(db, c, since, requestor);
        if all == {} then current == None && pending == {}
        else current.Some? && IsFirst(db, all, current.value) && pending == all - {current.value}
    {
      pending := set c | c in db.clock && Selected(db, c, since, requestor);
      Next();
    }

    /** `changesColumn`, all columns of the row the cursor stands on. */
    method Column() returns (ch: Change)
      requires Valid() && current.Some?
      ensures ch == ReadEntry(db, self, current.value)
    {
      var cell := current.value;
      var e := db.clock[cell];
      var site := self;
      if e.site.Some? { site := e.site.value; }
      if !rowFound {
        ch := Change(cell.row, DELETE_CID, NULL, e.colVersion, dbVersion, site);
      } else {
        ch := Change(cell.row, cell.cid, Crdt.Column(db, cell.row, cell.cid), e.colVersion, dbVersion, site);
      }
    }
  }

  ghost function ReadEntries(db: Db, self: Site, cells: set<Cell>): set<Change> {
    set c | c in cells && c in db.clock :: ReadEntry(db, self, c)
  }

  /** By version, then by table. */
  predicate InReadOrder(a: Change, b: Change) {
    a.dbVersion < b.dbVersion || (a.dbVersion == b.dbVersion && (a.row.tbl == b.row.tbl || Lt(a.row.tbl, b.row.tbl)))
  }

  /** The rows returned for a set of entries: each once, in order. */
  ghost predicate Reads(db: Db, self: Site, seen: set<Cell>, changes: seq<Change>) {
    (forall c | c in seen :: c in db.clock) && |changes| == |seen| &&
    (set ch | ch in changes) == ReadEntries(db, self, seen) &&
    forall a, b | 0 <= a < b < |changes| :: InReadOrder(changes[a], changes[b])
  }

  lemma ReadsOneMore(db: Db, self: Site, seen: set<Cell>, changes: seq<Change>, cell: Cell)
    requires Reads(db, self, seen, changes) && cell in db.clock && cell !in seen && Behind(db, seen, cell)
    ensures Reads(db, self, seen + {cell}, changes + [ReadEntry(db, self, cell)])
  {
    var ch := ReadEntry(db, self, cell);
    forall x | x in changes ensures InReadOrder(x, ch) {
      assert x in (set y | y in changes);
      assert x in ReadEntries(db, self, seen);
      var c :| c in seen && ReadEntry(db, self, c) == x;
    }
    assert (set x | x in changes + [ch]) == (set x | x in changes) + {ch};
    assert ReadEntries(db, self, seen + {cell}) == ReadEntries(db, self, seen) + {ch};
  }

  ghost predicate Behind(db: Db, seen: set<Cell>, cell: Cell)
    requires cell in db.clock
  {
    forall c | c in seen :: c in db.clock && InOrder(db, c, cell)
  }

  ghost predicate Ahead(db: Db, pending: set<Cell>, cell: Cell)
    requires cell in db.clock
  {
    forall c | c in pending :: c in db.clock && InOrder(db, cell, c)
  }

  lemma FirstIsAhead(db: Db, cells: set<Cell>, cell: Cell)
    requires (forall c | c in cells :: c in db.clock) && IsFirst(db, cells, cell)
    ensures Ahead(db, cells - {cell}, cell)
  {
    hide InOrder;
  }

  /** Every entry is either returned, current or still to come. */
  ghost predicate Partition(all: set<Cell>, seen: set<Cell>, pending: set<Cell>, current: Option<Cell>) {
    (forall c :: c in all <==> c in seen || c in pending || current == Some(c)) &&
    (forall c | c in pending || current == Some(c) :: c !in seen) &&
    (current.Some? ==> current.value !in pending)
  }

  lemma PartitionNext(all: set<Cell>, seen: set<Cell>, pending: set<Cell>, cell: Cell, next: Option<Cell>)
    requires Partition(all, seen, pending, Some(cell))
    requires next.Some? ==> next.value in pending
    requires next.None? ==> pending == {}
    ensures Partition(all, seen + {cell}, if next.Some? then pending - {next.value} else pending, next)
  {
  }

  lemma BehindNext(db: Db, seen: set<Cell>, pending: set<Cell>, cell: Cell, next: Cell)
    requires cell in db.clock && Behind(db, seen, cell) && Ahead(db, pending, cell) && next in pending
    ensures next in db.clock && Behind(db, seen + {cell}, next)
  {
    hide InOrder;
    assert next in db.clock && InOrder(db, cell, next);
    forall c | c in seen + {cell} ensures c in db.clock && InOrder(db, c, next) {
      if c != cell { InOrderTransitive(db, c, cell, next); }
    }
  }

  /** SELECT ... FROM crsql_changes: every selected entry once, in order of its version and then its table. */
  method ReadChanges(db: Db, self: Site, since: int, requestor: Option<Site>) returns (changes: seq<Change>)
    ensures (set ch | ch in changes) == ReadSet(db, self, since, requestor)
    ensures |changes| == |set c | c in db.clock && Selected(db, c, since, requestor)|
    ensures forall a, b | 0 <= a < b < |changes| :: InReadOrder(changes[a], changes[b])
  {
    hide InOrder, InReadOrder, IsFirst, ReadEntry, ReadSet, Selected, Reads, Behind, Ahead;
    ghost var all := set c | c in db.clock && Selected(db, c, since, requestor);
    ghost var seen: set<Cell> := {};
    var cursor := new ChangesCursor(db, self);
    changes := [];
    ReadsNone(db, self);
    cursor.Filter(since, requestor);
    if cursor.current.Some? { FirstSeen(db, all, cursor.current.value); }
    while cursor.current.Some?
      invariant cursor.Valid() && cursor.db == db && cursor.self == self && fresh(cursor)
      invariant Reads(db, self, seen, changes)
      invariant Partition(all, seen, cursor.pending, cursor.current)
      invariant cursor.current.None? ==> cursor.pending == {}
      invariant cursor.current.Some? ==>
        Behind(db, seen, cursor.current.value) && Ahead(db, cursor.pending, cursor.current.value)
      decreases |cursor.pending| + (if cursor.current.Some? then 1 else 0)
    {
      var ch := cursor.Column();
      ghost var cell, rest := cursor.current.value, cursor.pending;
      ReadsOneMore(db, self, seen, changes, cell);
      changes := changes + [ch];
      cursor.Next();
      PartitionNext(all, seen, rest, cell, cursor.current);
      if cursor.current.Some? {
        BehindNext(db, seen, rest, cell, cursor.current.value);
        FirstIsAhead(db, rest, cursor.current.value);
      }
      seen := seen + {cell};
    }
    ReadsAll(db, self, since, requestor, seen, changes);
  }

  lemma ReadsNone(db: Db, self: Site)
    ensures Reads(db, self, {}, [])
  {
  }

  lemma FirstSeen(db: Db, all: set<Cell>, cell: Cell)
    requires (forall c | c in all :: c in db.clock) && IsFirst(db, all, cell)
    ensures cell in db.clock && Behind(db, {}, cell) && Ahead(db, all - {cell}, cell)
  {
    FirstIsAhead(db, all, cell);
  }

  lemma ReadsAll(db: Db, self: Site, since: int, requestor: Option<Site>, seen: set<Cell>, changes: seq<Change>)
    requires Reads(db, self, seen, changes) && seen == set c | c in db.clock && Selected(db, c, since, requestor)
    ensures (set ch | ch in changes) == ReadSet(db, self, since, requestor)
    ensures |changes| == |seen| && forall a, b | 0 <= a < b < |changes| :: InReadOrder(changes[a], changes[b])
  {
  }
}
