/** Runs, from empty databases, on which rows stay different although every cursor is up to date:
    a read inside an open transaction, one of a transaction that rolls back, and a delete that the
    site filter hides. */
module LossyRuns {
  import opened Wrappers
  import opened ByteOrder
  import opened Crdt
  import opened Merging
  import opened Replica
  import opened Domination
  import opened Replication
  import opened Transactions
  import opened CursorSafety
  import opened DirtyReads

  const COLUMN: Cid := "c"
  const ROW_0 := RowId("t", "0")
  const ROW_1 := RowId("t", "1")
  const ROW_2 := RowId("t", "2")

  /** One table with one column; reads leave out the changes of the requestor. */
  const TABLE := Config(map["t" := [COLUMN]], true)

  function Empty(sites: set<Site>): Net {
    Net(map s | s in sites :: EMPTY, map[], map[], {}, {})
  }

  /** A database with a value in every row. */
  function Rows(entries: map<RowId, Entry>): Db {
    Db(map r | r in entries :: map[COLUMN := "1"], map r | r in entries :: Cell(r, COLUMN) := entries[r])
  }

  function Insertion(row: RowId): Write {
    Insert(row, map[COLUMN := "1"])
  }

  function Own(version: int): Entry {
    Entry(1, version, None)
  }

  function From(version: int, site: Site): Entry {
    Entry(1, version, Some(site))
  }

  /** The change of such a row. */
  function Told(row: RowId, version: int, site: Site): Change {
    Change(row, COLUMN, "1", 1, version, site)
  }

  // ---- Single steps -----------------------------------------------------------------------

  lemma EmptyRows()
    ensures Rows(map[]) == EMPTY && DbVersion(EMPTY.clock) == 0
  {
  }

  lemma RowsVersion(entries: map<RowId, Entry>, row: RowId)
    requires row in entries && forall r | r in entries :: entries[r].dbVersion <= entries[row].dbVersion
    ensures DbVersion(Rows(entries).clock) == entries[row].dbVersion
  {
    assert Cell(row, COLUMN) in Rows(entries).clock;
  }

  /** The entries of such a database. */
  lemma RowsAt(entries: map<RowId, Entry>, cell: Cell)
    ensures cell in Rows(entries).clock <==> cell.row in entries && cell.cid == COLUMN
    ensures cell in Rows(entries).clock ==> Rows(entries).clock[cell] == entries[cell.row]
    ensures cell.row in Rows(entries).rows <==> cell.row in entries
    ensures cell.row in entries ==> Rows(entries).rows[cell.row] == map[COLUMN := "1"]
    ensures !Tomb(Rows(entries), cell.row)
  {
    if cell.row in entries && cell.cid == COLUMN { assert Cell(cell.row, COLUMN) == cell; }
  }

  lemma RowsMore(entries: map<RowId, Entry>, row: RowId, e: Entry)
    ensures Rows(entries[row := e]).rows == Rows(entries).rows[row := map[COLUMN := "1"]]
    ensures Rows(entries[row := e]).clock == Rows(entries).clock[Cell(row, COLUMN) := e]
  {
    hide Rows;
    var db, more := Rows(entries), Rows(entries[row := e]);
    forall r ensures r in more.rows <==> r in db.rows[row := map[COLUMN := "1"]] {
      RowsAt(entries, Cell(r, COLUMN));
      RowsAt(entries[row := e], Cell(r, COLUMN));
    }
    forall r | r in more.rows ensures more.rows[r] == db.rows[row := map[COLUMN := "1"]][r] {
      RowsAt(entries, Cell(r, COLUMN));
      RowsAt(entries[row := e], Cell(r, COLUMN));
    }
    forall c ensures c in more.clock <==> c in db.clock[Cell(row, COLUMN) := e] {
      RowsAt(entries, c);
      RowsAt(entries[row := e], c);
    }
    forall c | c in more.clock ensures more.clock[c] == db.clock[Cell(row, COLUMN) := e][c] {
      RowsAt(entries, c);
      RowsAt(entries[row := e], c);
    }
  }

  lemma InsertRow(entries: map<RowId, Entry>, row: RowId, next: int)
    requires row.tbl == "t" && row !in entries
    ensures Permitted(TABLE, Rows(entries), Insertion(row))
    ensures WriteOne(TABLE, Rows(entries), Insertion(row), next) == Rows(entries[row := Own(next)])
  {
    hide Rows;
    var db, cids := Rows(entries), [COLUMN];
    RowsAt(entries, Cell(row, COLUMN));
    RowsMore(entries, row, Own(next));
    assert cids[..0] == [];
    assert BumpAll(db.clock, row, cids, next) == Bump(db.clock, Cell(row, COLUMN), next);
    assert FullRow(map[COLUMN := "1"], cids) == map[COLUMN := "1"];
  }

  lemma MergeRow(entries: map<RowId, Entry>, row: RowId, version: int, site: Site, next: int)
    requires row in entries ==> entries[row].colVersion == 1
    ensures Merge(Rows(entries), Told(row, version, site), next) ==
      Ok(Rows(if row in entries then entries else entries[row := From(Max(next, version), site)]))
  {
    hide Rows, Lt;
    LtIrreflexive("1");
    RowsAt(entries, Cell(row, COLUMN));
    if row !in entries {
      RowsMore(entries, row, From(Max(next, version), site));
      assert map[][COLUMN := "1"] == map[COLUMN := "1"];
    }
  }

  lemma InsertOne(entries: map<RowId, Entry>, row: RowId, next: int)
    requires row.tbl == "t" && row !in entries
    ensures PermittedAll(TABLE, Rows(entries), [Insertion(row)], next)
    ensures WriteAll(TABLE, Rows(entries), [Insertion(row)], next) == Rows(entries[row := Own(next)])
  {
    hide Permitted, WriteOne, Rows;
    InsertRow(entries, row, next);
    assert [Insertion(row)][..0] == [];
  }

  lemma InsertTwo(entries: map<RowId, Entry>, row: RowId, other: RowId, next: int)
    requires row.tbl == other.tbl == "t" && row != other && row !in entries && other !in entries
    ensures PermittedAll(TABLE, Rows(entries), [Insertion(row), Insertion(other)], next)
    ensures WriteAll(TABLE, Rows(entries), [Insertion(row), Insertion(other)], next) ==
      Rows(entries[row := Own(next)][other := Own(next)])
  {
    hide Permitted, WriteOne, Rows;
    InsertOne(entries, row, next);
    InsertRow(entries[row := Own(next)], other, next);
    assert [Insertion(row), Insertion(other)][..1] == [Insertion(row)];
  }

  lemma MergeOne(db: Db, ch: Change, next: int)
    ensures MergeAll(db, [ch], next) == Merge(db, ch, next)
  {
    hide Merge;
    assert [ch][..0] == [];
  }

  lemma MergeTwo(db: Db, ch: Change, other: Change, next: int)
    requires Merge(db, ch, next).Ok?
    ensures MergeAll(db, [ch, other], next) == Merge(Merge(db, ch, next).value, other, next)
  {
    hide Merge;
    MergeOne(db, ch, next);
    assert [ch, other][..1] == [ch];
  }

  lemma OneVersion(ch: Change)
    requires ch.dbVersion >= 0
    ensures MaxVersion([ch]) == ch.dbVersion && (set x | x in [ch]) == {ch}
  {
    assert [ch][..0] == [];
  }

  lemma TwoVersions(ch: Change, other: Change)
    requires 0 <= ch.dbVersion <= other.dbVersion
    ensures MaxVersion([ch, other]) == other.dbVersion && (set x | x in [ch, other]) == {ch, other}
  {
    OneVersion(ch);
    assert [ch, other][..1] == [ch];
    assert ch in [ch, other] && other in [ch, other];
  }

  /** What a requestor with cursor 0 reads of two rows. */
  lemma ReadTwo(row: RowId, e: Entry, other: RowId, f: Entry, self: Site, requestor: Site)
    requires row != other && e.colVersion == f.colVersion == 1 && e.dbVersion > 0 && f.dbVersion > 0
    requires f.site != Some(requestor)
    ensures var second := Told(other, f.dbVersion, if f.site.Some? then f.site.value else self);
      ReadSet(Rows(map[row := e, other := f]), self, 0, Requestor(TABLE, requestor)) ==
        if e.site == Some(requestor) then {second}
        else {Told(row, e.dbVersion, if e.site.Some? then e.site.value else self), second}
  {
    var db := Rows(map[row := e, other := f]);
    assert Cell(row, COLUMN) in db.clock && Cell(other, COLUMN) in db.clock;
    assert ReadEntry(db, self, Cell(other, COLUMN)) ==
      Told(other, f.dbVersion, if f.site.Some? then f.site.value else self);
    assert ReadEntry(db, self, Cell(row, COLUMN)) ==
      Told(row, e.dbVersion, if e.site.Some? then e.site.value else self);
  }

  // ---- Putting runs together --------------------------------------------------------------

  ghost predicate Reaches(cfg: Config, net: Net, steps: seq<Step>, end: Net) {
    LegalRun(cfg, net, steps) && Run(cfg, net, steps) == end
  }

  lemma ReachesStep(cfg: Config, net: Net, steps: seq<Step>, at: Net, step: Step, end: Net)
    requires Reaches(cfg, net, steps, at) && Enabled(cfg, at, step) && Do(cfg, at, step) == end
    ensures Reaches(cfg, net, steps + [step], end)
  {
    hide Enabled, Do, LegalRun, Run;
    OneStepMore(cfg, net, steps, step);
  }

  lemma ReachesMore(cfg: Config, net: Net, steps: seq<Step>, at: Net, more: seq<Step>, end: Net)
    requires Reaches(cfg, net, steps, at) && Reaches(cfg, at, more, end)
    ensures Reaches(cfg, net, steps + more, end)
  {
    hide LegalRun, Run;
    RunJoined(cfg, net, steps, more);
  }

  lemma ReachesTransaction(cfg: Config, net: Net, s: Site, writes: seq<Write>, end: Net)
    requires s in net.dbs && s !in net.txs && PermittedAll(cfg, net.dbs[s], writes, Next(net, s))
    requires end == net.(dbs := net.dbs[s := WriteAll(cfg, net.dbs[s], writes, Next(net, s))])
    ensures Reaches(cfg, net, Transaction(s, writes), end)
  {
    hide LegalRun, Run, PermittedAll, WriteAll, Transaction;
    TransactionAtOnce(cfg, net, s, writes);
  }

  lemma ReachesReceipt(cfg: Config, net: Net, p: Push, end: Net)
    requires p in net.pushes && p.target in net.dbs && p.target !in net.txs
    requires MergeAll(net.dbs[p.target], p.changes, Next(net, p.target)).Ok?
    requires end == net.(
      dbs := net.dbs[p.target := MergeAll(net.dbs[p.target], p.changes, Next(net, p.target)).value],
      cursors := net.cursors[(p.target, p.source) := MaxVersion(p.changes)])
    ensures Reaches(cfg, net, Receipt(p), end)
  {
    hide LegalRun, Run, MergeAll, MaxVersion, Receipt;
    ReceiptAtOnce(cfg, net, p);
  }

  lemma ReachesNothing(cfg: Config, net: Net)
    ensures Reaches(cfg, net, [], net)
  {
    NoSteps(cfg, net);
  }

  lemma ReachesIs(cfg: Config, net: Net, steps: seq<Step>, end: Net)
    requires Reaches(cfg, net, steps, end)
    ensures LegalRun(cfg, net, steps) && Run(cfg, net, steps) == end
  {
  }

  lemma StartEmpty(sites: set<Site>)
    ensures Start(Empty(sites)) && GoodConfig(TABLE)
  {
  }

  // ---- One step more ----------------------------------------------------------------------

  lemma Polls(cfg: Config, net: Net, steps: seq<Step>, at: Net, j: Site, i: Site, version: int, end: Net)
    requires Reaches(cfg, net, steps, at) && j in at.dbs && i in at.dbs
    requires VisibleCursor(at, j, i) < version <= DbVersion(at.dbs[i].clock)
    requires end == at.(requests := at.requests + {Request(i, j, VisibleCursor(at, j, i))})
    ensures Reaches(cfg, net, steps + [Poke(j, i, version)], end)
  {
    hide Reaches, VisibleCursor, DbVersion;
    ReachesStep(cfg, net, steps, at, Poke(j, i, version), end);
  }

  lemma Serves(cfg: Config, net: Net, steps: seq<Step>, at: Net, r: Request, changes: seq<Change>, end: Net)
    requires Reaches(cfg, net, steps, at) && r in at.requests && r.source in at.dbs && changes != []
    requires (set ch | ch in changes) == ReadSet(Visible(at, r.source), r.source, r.since, Requestor(cfg, r.target))
    requires end == at.(pushes := at.pushes + {Push(r.source, r.target, changes)})
    ensures Reaches(cfg, net, steps + [Serve(r, changes)], end)
  {
    hide Reaches, ReadSet, Visible, Requestor;
    ReachesStep(cfg, net, steps, at, Serve(r, changes), end);
  }

  lemma Begins(cfg: Config, net: Net, s: Site, push: Option<Push>)
    requires s in net.dbs && s !in net.txs && (push.Some? ==> push.value in net.pushes && push.value.target == s)
    ensures Reaches(cfg, net, [Begin(s, push)], WithTx(net, s, Tx(net.dbs[s], push, 0, false)))
  {
    hide LegalRun, Run;
    OneStep(cfg, net, Begin(s, push));
  }

  lemma MergesNext(cfg: Config, net: Net, steps: seq<Step>, at: Net, s: Site, db: Db)
    requires Reaches(cfg, net, steps, at) && s in at.dbs && s in at.txs
    requires at.txs[s].push.Some? && at.txs[s].merged < |at.txs[s].push.value.changes|
    requires Merge(at.txs[s].db, at.txs[s].push.value.changes[at.txs[s].merged], Next(at, s)) == Ok(db)
    ensures Reaches(cfg, net, steps + [MergeNext(s)],
      WithTx(at, s, at.txs[s].(db := db, merged := at.txs[s].merged + 1)))
  {
    hide Reaches, Merge, Next;
    ReachesStep(cfg, net, steps, at, MergeNext(s), WithTx(at, s, at.txs[s].(db := db, merged := at.txs[s].merged + 1)));
  }

  lemma Writes(cfg: Config, net: Net, steps: seq<Step>, at: Net, s: Site, w: Write)
    requires Reaches(cfg, net, steps, at) && s in at.dbs && s in at.txs && Permitted(cfg, at.txs[s].db, w)
    ensures Reaches(cfg, net, steps + [Statement(s, w)],
      WithTx(at, s, at.txs[s].(db := WriteOne(cfg, at.txs[s].db, w, Next(at, s)))))
  {
    hide Reaches, Permitted, WriteOne, Next;
    ReachesStep(cfg, net, steps, at, Statement(s, w),
      WithTx(at, s, at.txs[s].(db := WriteOne(cfg, at.txs[s].db, w, Next(at, s)))));
  }

  lemma Records(cfg: Config, net: Net, steps: seq<Step>, at: Net, s: Site)
    requires Reaches(cfg, net, steps, at) && s in at.dbs && s in at.txs && AllMerged(at.txs[s]) && !at.txs[s].recorded
    ensures Reaches(cfg, net, steps + [Record(s)], WithTx(at, s, at.txs[s].(recorded := true)))
  {
    hide Reaches;
    ReachesStep(cfg, net, steps, at, Record(s), WithTx(at, s, at.txs[s].(recorded := true)));
  }

  lemma Ends(cfg: Config, net: Net, steps: seq<Step>, at: Net, s: Site)
    requires Reaches(cfg, net, steps, at) && s in at.dbs && s in at.txs && at.txs[s].push.Some? && at.txs[s].recorded
    ensures Reaches(cfg, net, steps + [End(s)], Committed(at, s))
  {
    hide Reaches, Committed;
    ReachesStep(cfg, net, steps, at, End(s), Committed(at, s));
  }

  lemma Aborts(cfg: Config, net: Net, steps: seq<Step>, at: Net, s: Site)
    requires Reaches(cfg, net, steps, at) && s in at.dbs && s in at.txs && !at.txs[s].recorded
    ensures Reaches(cfg, net, steps + [Abort(s)], at.(txs := at.txs - {s}))
  {
    hide Reaches;
    ReachesStep(cfg, net, steps, at, Abort(s), at.(txs := at.txs - {s}));
  }

  // ---- A read inside an open transaction --------------------------------------------------

  const BOTH := [Told(ROW_1, 1, "m"), Told(ROW_2, 1, "m")]
  const SEEN := [Told(ROW_0, 1, "i"), Told(ROW_1, 2, "m")]
  const BACK := [Told(ROW_1, 2, "m")]
  const FROM_M := Push("m", "i", BOTH)
  const DIRTY := Push("i", "k", SEEN)
  const RETURNED := Push("k", "i", BACK)

  /** m has two rows of one transaction. */
  function AtM(): Db {
    Rows(map[ROW_1 := Own(1), ROW_2 := Own(1)])
  }

  /** i has a row of its own, then the first row of m, then both. */
  function AtI(merged: nat): Db {
    if merged == 0 then Rows(map[ROW_0 := Own(1)])
    else if merged == 1 then Rows(map[ROW_0 := Own(1), ROW_1 := From(2, "m")])
    else Rows(map[ROW_0 := Own(1), ROW_1 := From(2, "m"), ROW_2 := From(2, "m")])
  }

  function AtK(): Db {
    Rows(map[ROW_0 := From(1, "i"), ROW_1 := From(2, "m")])
  }

  function Three(m: Db, i: Db, k: Db): Dbs {
    map["m" := m, "i" := i, "k" := k]
  }

  lemma VersionsOf()
    ensures DbVersion(AtM().clock) == 1 && DbVersion(AtI(0).clock) == 1 && DbVersion(AtI(2).clock) == 2
    ensures DbVersion(AtK().clock) == 2 && DbVersion(EMPTY.clock) == 0
  {
    hide Rows, DbVersion;
    EmptyRows();
    RowsVersion(map[ROW_1 := Own(1), ROW_2 := Own(1)], ROW_1);
    RowsVersion(map[ROW_0 := Own(1)], ROW_0);
    RowsVersion(map[ROW_0 := Own(1), ROW_1 := From(2, "m"), ROW_2 := From(2, "m")], ROW_1);
    RowsVersion(map[ROW_0 := From(1, "i"), ROW_1 := From(2, "m")], ROW_1);
  }

  lemma Written()
    ensures PermittedAll(TABLE, EMPTY, [Insertion(ROW_1), Insertion(ROW_2)], 1)
    ensures WriteAll(TABLE, EMPTY, [Insertion(ROW_1), Insertion(ROW_2)], 1) == AtM()
    ensures PermittedAll(TABLE, EMPTY, [Insertion(ROW_0)], 1)
    ensures WriteAll(TABLE, EMPTY, [Insertion(ROW_0)], 1) == AtI(0)
  {
    hide PermittedAll, WriteAll, Rows;
    EmptyRows();
    InsertTwo(map[], ROW_1, ROW_2, 1);
    InsertOne(map[], ROW_0, 1);
    assert map[][ROW_1 := Own(1)][ROW_2 := Own(1)] == map[ROW_1 := Own(1), ROW_2 := Own(1)];
    assert map[][ROW_0 := Own(1)] == map[ROW_0 := Own(1)];
  }

  lemma MergedAtI()
    ensures Merge(AtI(0), BOTH[0], 2) == Ok(AtI(1)) && Merge(AtI(1), BOTH[1], 2) == Ok(AtI(2))
    ensures MergeAll(AtI(2), BACK, 3) == Ok(AtI(2))
  {
    hide Merge, MergeAll, Rows;
    MergeRow(map[ROW_0 := Own(1)], ROW_1, 1, "m", 2);
    assert map[ROW_0 := Own(1)][ROW_1 := From(2, "m")] == map[ROW_0 := Own(1), ROW_1 := From(2, "m")];
    MergeRow(map[ROW_0 := Own(1), ROW_1 := From(2, "m")], ROW_2, 1, "m", 2);
    assert map[ROW_0 := Own(1), ROW_1 := From(2, "m")][ROW_2 := From(2, "m")] ==
      map[ROW_0 := Own(1), ROW_1 := From(2, "m"), ROW_2 := From(2, "m")];
    MergeRow(map[ROW_0 := Own(1), ROW_1 := From(2, "m"), ROW_2 := From(2, "m")], ROW_1, 2, "m", 3);
    MergeOne(AtI(2), BACK[0], 3);
  }

  lemma MergedAtK()
    ensures MergeAll(EMPTY, SEEN, 1) == Ok(AtK())
  {
    hide Merge, MergeAll, Rows;
    EmptyRows();
    MergeRow(map[], ROW_0, 1, "i", 1);
    assert map[][ROW_0 := From(1, "i")] == map[ROW_0 := From(1, "i")];
    MergeRow(map[ROW_0 := From(1, "i")], ROW_1, 2, "m", 1);
    assert map[ROW_0 := From(1, "i")][ROW_1 := From(2, "m")] == map[ROW_0 := From(1, "i"), ROW_1 := From(2, "m")];
    MergeTwo(EMPTY, SEEN[0], SEEN[1], 1);
  }

  lemma ReadAll()
    ensures ReadSet(AtM(), "m", 0, Requestor(TABLE, "i")) == (set ch | ch in BOTH) && MaxVersion(BOTH) == 1
    ensures ReadSet(AtI(1), "i", 0, Requestor(TABLE, "k")) == (set ch | ch in SEEN) && MaxVersion(SEEN) == 2
    ensures ReadSet(AtK(), "k", 0, Requestor(TABLE, "i")) == (set ch | ch in BACK) && MaxVersion(BACK) == 2
  {
    hide ReadSet, Requestor, Rows, MaxVersion;
    ReadTwo(ROW_1, Own(1), ROW_2, Own(1), "m", "i");
    ReadTwo(ROW_0, Own(1), ROW_1, From(2, "m"), "i", "k");
    ReadTwo(ROW_0, From(1, "i"), ROW_1, From(2, "m"), "k", "i");
    TwoVersions(BOTH[0], BOTH[1]);
    TwoVersions(SEEN[0], SEEN[1]);
    OneVersion(BACK[0]);
  }

  const REQUESTS := {Request("m", "i", 0), Request("i", "k", 0)}

  /** Before i takes in the push of m. */
  function Before(): Net {
    Net(Three(AtM(), AtI(0), EMPTY), map[], map[], REQUESTS, {FROM_M})
  }

  /** i merged the first row of m, and k has been served. */
  function Served(): Net {
    Net(Three(AtM(), AtI(0), EMPTY), map["i" := Tx(AtI(1), Some(FROM_M), 1, false)], map[], REQUESTS, {FROM_M, DIRTY})
  }

  /** i committed the rest. */
  function After(): Net {
    Net(Three(AtM(), AtI(2), EMPTY), map[], map[("i", "m") := 1], REQUESTS, {FROM_M, DIRTY})
  }

  /** k took in what it got, and so did i from k. */
  function Lost(): Net {
    Net(Three(AtM(), AtI(2), AtK()), map[], map[("i", "m") := 1, ("k", "i") := 2, ("i", "k") := 2],
        REQUESTS + {Request("k", "i", 0)}, {FROM_M, DIRTY, RETURNED})
  }

  lemma ReachesBefore() returns (steps: seq<Step>)
    ensures Reaches(TABLE, Empty({"m", "i", "k"}), steps, Before())
  {
    hide Reaches, Before;
    var first := ReachesStored();
    var second := ReachesAsked();
    ReachesMore(TABLE, Empty({"m", "i", "k"}), first, Stored(), second, Before());
    steps := first + second;
  }

  /** m and i committed their rows. */
  function Stored(): Net {
    Net(Three(AtM(), AtI(0), EMPTY), map[], map[], {}, {})
  }

  lemma ReachesStored() returns (steps: seq<Step>)
    ensures Reaches(TABLE, Empty({"m", "i", "k"}), steps, Stored())
  {
    hide Reaches, PermittedAll, WriteAll, AtM, AtI, DbVersion;
    VersionsOf();
    Written();
    var start := Empty({"m", "i", "k"});
    var net1 := Net(Three(AtM(), EMPTY, EMPTY), map[], map[], {}, {});
    ReachesTransaction(TABLE, start, "m", [Insertion(ROW_1), Insertion(ROW_2)], net1);
    ReachesTransaction(TABLE, net1, "i", [Insertion(ROW_0)], Stored());
    steps := Transaction("m", [Insertion(ROW_1), Insertion(ROW_2)]) + Transaction("i", [Insertion(ROW_0)]);
    ReachesMore(TABLE, start, Transaction("m", [Insertion(ROW_1), Insertion(ROW_2)]), net1,
      Transaction("i", [Insertion(ROW_0)]), Stored());
  }

  lemma ReachesAsked() returns (steps: seq<Step>)
    ensures Reaches(TABLE, Stored(), steps, Before())
  {
    hide Reaches, ReadSet, AtM, AtI, DbVersion, MaxVersion, Enabled, Do, Requestor;
    VersionsOf();
    ReadAll();
    ReachesNothing(TABLE, Stored());
    var net1 := Stored().(requests := {Request("m", "i", 0)});
    Polls(TABLE, Stored(), [], Stored(), "i", "m", 1, net1);
    steps := [] + [Poke("i", "m", 1)];
    var net2 := net1.(pushes := {FROM_M});
    Serves(TABLE, Stored(), steps, net1, Request("m", "i", 0), BOTH, net2);
    steps := steps + [Serve(Request("m", "i", 0), BOTH)];
    Polls(TABLE, Stored(), steps, net2, "k", "i", 1, Before());
    steps := steps + [Poke("k", "i", 1)];
  }

  lemma ReachesServed() returns (steps: seq<Step>)
    ensures Reaches(TABLE, Before(), steps, Served())
  {
    hide Reaches, ReadSet, AtM, AtI, DbVersion, MaxVersion, Merge, Enabled, Do, Requestor;
    VersionsOf();
    MergedAtI();
    ReadAll();
    var net1 := WithTx(Before(), "i", Tx(AtI(0), Some(FROM_M), 0, false));
    Begins(TABLE, Before(), "i", Some(FROM_M));
    steps := [Begin("i", Some(FROM_M))];
    var net2 := WithTx(Before(), "i", Tx(AtI(1), Some(FROM_M), 1, false));
    MergesNext(TABLE, Before(), steps, net1, "i", AtI(1));
    steps := steps + [MergeNext("i")];
    assert WithTx(net1, "i", Tx(AtI(1), Some(FROM_M), 1, false)) == net2;
    Serves(TABLE, Before(), steps, net2, Request("i", "k", 0), SEEN, Served());
    steps := steps + [Serve(Request("i", "k", 0), SEEN)];
  }

  /** The rest of the transaction. */
  lemma ReachesAfter() returns (steps: seq<Step>)
    ensures Reaches(TABLE, Served(), steps, After())
  {
    hide Reaches, AtM, AtI, DbVersion, MaxVersion, Merge, Enabled, Do, ReadSet;
    VersionsOf();
    MergedAtI();
    ReadAll();
    ReachesNothing(TABLE, Served());
    MergesNext(TABLE, Served(), [], Served(), "i", AtI(2));
    steps := [] + [MergeNext("i")];
    var net1 := WithTx(Served(), "i", Tx(AtI(2), Some(FROM_M), 2, false));
    Records(TABLE, Served(), steps, net1, "i");
    steps := steps + [Record("i")];
    var net2 := WithTx(Served(), "i", Tx(AtI(2), Some(FROM_M), 2, true));
    assert WithTx(net1, "i", Tx(AtI(2), Some(FROM_M), 2, true)) == net2;
    Ends(TABLE, Served(), steps, net2, "i");
    steps := steps + [End("i")];
    assert Committed(net2, "i") == After();
  }

  /** k took in what it got. */
  function Received(): Net {
    Net(Three(AtM(), AtI(2), AtK()), map[], map[("i", "m") := 1, ("k", "i") := 2], REQUESTS, {FROM_M, DIRTY})
  }

  lemma ReachesReceived() returns (steps: seq<Step>)
    ensures Reaches(TABLE, After(), steps, Received())
  {
    hide Reaches, ReadSet, AtM, AtI, AtK, DbVersion, MaxVersion, MergeAll, Receipt;
    VersionsOf();
    MergedAtK();
    ReadAll();
    ReachesReceipt(TABLE, After(), DIRTY, Received());
    steps := Receipt(DIRTY);
  }

  lemma ReachesReturned() returns (steps: seq<Step>)
    ensures Reaches(TABLE, Received(), steps, Lost())
  {
    hide Reaches, ReadSet, AtM, AtI, AtK, DbVersion, MaxVersion, MergeAll, Receipt, Enabled, Do, Requestor;
    VersionsOf();
    MergedAtI();
    ReadAll();
    ReachesNothing(TABLE, Received());
    var net1 := Received().(requests := REQUESTS + {Request("k", "i", 0)});
    Polls(TABLE, Received(), [], Received(), "i", "k", 2, net1);
    steps := [] + [Poke("i", "k", 2)];
    var net2 := net1.(pushes := {FROM_M, DIRTY, RETURNED});
    Serves(TABLE, Received(), steps, net1, Request("k", "i", 0), BACK, net2);
    steps := steps + [Serve(Request("k", "i", 0), BACK)];
    ReachesReceipt(TABLE, net2, RETURNED, Lost());
    ReachesMore(TABLE, Received(), steps, net2, Receipt(RETURNED), Lost());
    steps := steps + Receipt(RETURNED);
  }

  lemma LostEntries(cell: Cell)
    ensures cell in AtI(2).clock <==> cell.row in {ROW_0, ROW_1, ROW_2} && cell.cid == COLUMN
    ensures cell in AtI(2).clock ==> AtI(2).clock[cell].dbVersion <= 2 && !Tomb(AtI(2), cell.row)
    ensures cell in AtK().clock <==> cell.row in {ROW_0, ROW_1} && cell.cid == COLUMN
    ensures cell in AtK().clock ==> AtK().clock[cell] == if cell.row == ROW_0 then From(1, "i") else From(2, "m")
    ensures !Tomb(AtI(2), cell.row) && !Tomb(AtK(), cell.row)
    ensures cell.row in AtI(2).rows <==> cell.row in {ROW_0, ROW_1, ROW_2}
    ensures cell.row in AtK().rows <==> cell.row in {ROW_0, ROW_1}
  {
    hide Rows;
    RowsAt(map[ROW_0 := Own(1), ROW_1 := From(2, "m"), ROW_2 := From(2, "m")], cell);
    RowsAt(map[ROW_0 := From(1, "i"), ROW_1 := From(2, "m")], cell);
  }

  lemma LostCaughtUp()
    ensures CaughtUp(TABLE, Lost(), "k", "i") && CaughtUp(TABLE, Lost(), "i", "k")
  {
    hide AtI, AtK, AtM;
    forall cell ensures cell in AtI(2).clock ==> AtI(2).clock[cell].dbVersion <= 2 { LostEntries(cell); }
    forall cell ensures cell in AtK().clock ==> AtK().clock[cell].dbVersion <= 2 { LostEntries(cell); }
  }

  lemma LostShows()
    ensures var end, lost := Lost(), Cell(ROW_2, COLUMN);
      lost in AtI(2).clock && AtI(2).clock[lost].dbVersion <= Cursor(end, "k", "i") &&
      LeftBehind(TABLE, "k", AtK(), AtI(2), lost) && !ShowSame(AtI(2), AtK(), ROW_2) &&
      !Hides(TABLE, end, "i", "k", ROW_2) && !Hides(TABLE, end, "k", "i", ROW_2)
  {
    hide AtI, AtK, AtM, Le;
    LostEntries(Cell(ROW_2, COLUMN));
  }

  /** i takes in two rows of m in one transaction and serves k in the middle of it. In the end i and k
      are up to date with each other as far as their cursors go; the entry of the second row lies at
      k's cursor, and k does not have it. */
  lemma DirtyReadLoses() returns (steps: seq<Step>)
    ensures var start := Empty({"m", "i", "k"});
      Start(start) && GoodConfig(TABLE) && LegalRun(TABLE, start, steps) &&
      var end, lost := Run(TABLE, start, steps), Cell(ROW_2, COLUMN);
      end.txs == map[] && "i" in end.dbs && "k" in end.dbs &&
      CaughtUp(TABLE, end, "k", "i") && CaughtUp(TABLE, end, "i", "k") &&
      lost in end.dbs["i"].clock && end.dbs["i"].clock[lost].dbVersion <= Cursor(end, "k", "i") &&
      LeftBehind(TABLE, "k", end.dbs["k"], end.dbs["i"], lost) && !ShowSame(end.dbs["i"], end.dbs["k"], ROW_2) &&
      !Hides(TABLE, end, "i", "k", ROW_2) && !Hides(TABLE, end, "k", "i", ROW_2)
  {
    hide Reaches, LegalRun, Run, AtI, AtK, AtM, LeftBehind, CaughtUp, ShowSame, Hides;
    var start := Empty({"m", "i", "k"});
    var first := ReachesBefore();
    var second := ReachesServed();
    ReachesMore(TABLE, start, first, Before(), second, Served());
    var third := ReachesAfter();
    ReachesMore(TABLE, start, first + second, Served(), third, After());
    var fourth := ReachesReceived();
    ReachesMore(TABLE, start, first + second + third, After(), fourth, Received());
    var fifth := ReachesReturned();
    ReachesMore(TABLE, start, first + second + third + fourth, Received(), fifth, Lost());
    steps := first + second + third + fourth + fifth;
    ReachesIs(TABLE, start, steps, Lost());
    LostCaughtUp();
    LostShows();
    StartEmpty({"m", "i", "k"});
  }

  // ---- A read of a transaction that rolls back --------------------------------------------

  const UNDONE := [Told(ROW_0, 1, "i"), Told(ROW_1, 2, "i")]
  const FROM_UNDONE := Push("i", "k", UNDONE)

  /** i with its first row and one more. */
  function WithRow(row: RowId): Db {
    Rows(map[ROW_0 := Own(1), row := Own(2)])
  }

  function Undone(): Db {
    Rows(map[ROW_0 := From(1, "i"), ROW_1 := From(2, "i")])
  }

  function Two(i: Db, k: Db): Dbs {
    map["i" := i, "k" := k]
  }

  lemma WrittenAfter(row: RowId)
    requires row.tbl == "t" && row != ROW_0
    ensures Permitted(TABLE, AtI(0), Insertion(row)) && WriteOne(TABLE, AtI(0), Insertion(row), 2) == WithRow(row)
    ensures PermittedAll(TABLE, AtI(0), [Insertion(row)], 2)
    ensures WriteAll(TABLE, AtI(0), [Insertion(row)], 2) == WithRow(row)
  {
    hide Permitted, WriteOne, PermittedAll, WriteAll, Rows;
    InsertRow(map[ROW_0 := Own(1)], row, 2);
    InsertOne(map[ROW_0 := Own(1)], row, 2);
    assert map[ROW_0 := Own(1)][row := Own(2)] == map[ROW_0 := Own(1), row := Own(2)];
  }

  lemma UndoneRead()
    ensures ReadSet(WithRow(ROW_1), "i", 0, Requestor(TABLE, "k")) == (set ch | ch in UNDONE) && MaxVersion(UNDONE) == 2
    ensures MergeAll(EMPTY, UNDONE, 1) == Ok(Undone())
  {
    hide ReadSet, Requestor, Rows, MaxVersion, Merge, MergeAll;
    EmptyRows();
    ReadTwo(ROW_0, Own(1), ROW_1, Own(2), "i", "k");
    TwoVersions(UNDONE[0], UNDONE[1]);
    MergeRow(map[], ROW_0, 1, "i", 1);
    assert map[][ROW_0 := From(1, "i")] == map[ROW_0 := From(1, "i")];
    MergeRow(map[ROW_0 := From(1, "i")], ROW_1, 2, "i", 1);
    assert map[ROW_0 := From(1, "i")][ROW_1 := From(2, "i")] == map[ROW_0 := From(1, "i"), ROW_1 := From(2, "i")];
    MergeTwo(EMPTY, UNDONE[0], UNDONE[1], 1);
  }

  /** k was served inside a transaction of i that then rolled back. */
  function RolledBack(i: Db): Net {
    Net(Two(i, EMPTY), map[], map[], {Request("i", "k", 0)}, {FROM_UNDONE})
  }

  /** i has a row, and k asks for it. */
  function Wanted(): Net {
    Net(Two(AtI(0), EMPTY), map[], map[], {Request("i", "k", 0)}, {})
  }

  lemma ReachesWanted() returns (steps: seq<Step>)
    ensures Reaches(TABLE, Empty({"i", "k"}), steps, Wanted())
  {
    hide Reaches, PermittedAll, WriteAll, AtI, DbVersion, Enabled, Do;
    VersionsOf();
    Written();
    var start := Empty({"i", "k"});
    var net1 := Net(Two(AtI(0), EMPTY), map[], map[], {}, {});
    ReachesTransaction(TABLE, start, "i", [Insertion(ROW_0)], net1);
    steps := Transaction("i", [Insertion(ROW_0)]);
    Polls(TABLE, start, steps, net1, "k", "i", 1, Wanted());
    steps := steps + [Poke("k", "i", 1)];
  }

  lemma ReachesRolledBack() returns (steps: seq<Step>)
    ensures Reaches(TABLE, Wanted(), steps, RolledBack(AtI(0)))
  {
    hide Reaches, Permitted, WriteOne, ReadSet, AtI, WithRow, DbVersion, MaxVersion, Undone, Enabled, Do, Requestor;
    VersionsOf();
    WrittenAfter(ROW_1);
    UndoneRead();
    var net1 := WithTx(Wanted(), "i", Tx(AtI(0), None, 0, false));
    Begins(TABLE, Wanted(), "i", None);
    steps := [Begin("i", None)];
    var net2 := WithTx(Wanted(), "i", Tx(WithRow(ROW_1), None, 0, false));
    Writes(TABLE, Wanted(), steps, net1, "i", Insertion(ROW_1));
    steps := steps + [Statement("i", Insertion(ROW_1))];
    assert WithTx(net1, "i", Tx(WithRow(ROW_1), None, 0, false)) == net2;
    var net3 := net2.(pushes := {FROM_UNDONE});
    Serves(TABLE, Wanted(), steps, net2, Request("i", "k", 0), UNDONE, net3);
    steps := steps + [Serve(Request("i", "k", 0), UNDONE)];
    Aborts(TABLE, Wanted(), steps, net3, "i");
    steps := steps + [Abort("i")];
    assert net3.(txs := net3.txs - {"i"}) == RolledBack(AtI(0));
  }

  function Diverged(): Net {
    Net(Two(WithRow(ROW_2), Undone()), map[], map[("k", "i") := 2], {Request("i", "k", 0)}, {FROM_UNDONE})
  }

  lemma ReachesDiverged() returns (steps: seq<Step>)
    ensures Reaches(TABLE, RolledBack(AtI(0)), steps, Diverged())
  {
    hide Reaches, PermittedAll, WriteAll, MergeAll, AtI, WithRow, Undone, DbVersion, MaxVersion, Receipt;
    VersionsOf();
    WrittenAfter(ROW_2);
    UndoneRead();
    var start := RolledBack(AtI(0));
    ReachesTransaction(TABLE, start, "i", [Insertion(ROW_2)], RolledBack(WithRow(ROW_2)));
    ReachesReceipt(TABLE, RolledBack(WithRow(ROW_2)), FROM_UNDONE, Diverged());
    steps := Transaction("i", [Insertion(ROW_2)]) + Receipt(FROM_UNDONE);
    ReachesMore(TABLE, start, Transaction("i", [Insertion(ROW_2)]), RolledBack(WithRow(ROW_2)),
      Receipt(FROM_UNDONE), Diverged());
  }

  lemma DivergedEntries(cell: Cell)
    ensures cell in WithRow(ROW_2).clock <==> cell.row in {ROW_0, ROW_2} && cell.cid == COLUMN
    ensures cell in WithRow(ROW_2).clock ==>
      WithRow(ROW_2).clock[cell] == if cell.row == ROW_0 then Own(1) else Own(2)
    ensures cell in Undone().clock <==> cell.row in {ROW_0, ROW_1} && cell.cid == COLUMN
    ensures cell in Undone().clock ==> Undone().clock[cell].site == Some("i")
    ensures !Tomb(WithRow(ROW_2), cell.row) && !Tomb(Undone(), cell.row)
    ensures cell.row in WithRow(ROW_2).rows <==> cell.row in {ROW_0, ROW_2}
    ensures cell.row in Undone().rows <==> cell.row in {ROW_0, ROW_1}
  {
    hide Rows;
    RowsAt(map[ROW_0 := Own(1), ROW_2 := Own(2)], cell);
    RowsAt(map[ROW_0 := From(1, "i"), ROW_1 := From(2, "i")], cell);
  }

  lemma DivergedShows()
    ensures var lost := Cell(ROW_2, COLUMN);
      lost in WithRow(ROW_2).clock && WithRow(ROW_2).clock[lost].dbVersion <= Cursor(Diverged(), "k", "i") &&
      LeftBehind(TABLE, "k", Undone(), WithRow(ROW_2), lost)
    ensures ROW_1 in Undone().rows && ROW_1 !in WithRow(ROW_2).rows
    ensures ReadSet(Undone(), "k", 0, Requestor(TABLE, "i")) == {}
  {
    hide WithRow, Undone, Le;
    DivergedEntries(Cell(ROW_2, COLUMN));
    DivergedEntries(Cell(ROW_1, COLUMN));
    forall cell ensures cell in Undone().clock ==> Undone().clock[cell].site == Some("i") { DivergedEntries(cell); }
  }

  /** A read inside a transaction that rolls back: the next transaction writes with the same version,
      so k misses its row; and k keeps a row that i never had, signed by i, so that i never reads it
      back. */
  lemma RolledBackReadDiverges() returns (steps: seq<Step>)
    ensures var start := Empty({"i", "k"});
      Start(start) && LegalRun(TABLE, start, steps) &&
      var end, lost := Run(TABLE, start, steps), Cell(ROW_2, COLUMN);
      end.txs == map[] && "i" in end.dbs && "k" in end.dbs && lost in end.dbs["i"].clock &&
      end.dbs["i"].clock[lost].dbVersion <= Cursor(end, "k", "i") &&
      LeftBehind(TABLE, "k", end.dbs["k"], end.dbs["i"], lost) &&
      ROW_1 in end.dbs["k"].rows && ROW_1 !in end.dbs["i"].rows &&
      ReadSet(end.dbs["k"], "k", 0, Requestor(TABLE, "i")) == {}
  {
    hide Reaches, LegalRun, Run, AtI, WithRow, Undone, LeftBehind, ReadSet;
    var start := Empty({"i", "k"});
    var first := ReachesWanted();
    var second := ReachesRolledBack();
    ReachesMore(TABLE, start, first, Wanted(), second, RolledBack(AtI(0)));
    var third := ReachesDiverged();
    ReachesMore(TABLE, start, first + second, RolledBack(AtI(0)), third, Diverged());
    steps := first + second + third;
    ReachesIs(TABLE, start, steps, Diverged());
    DivergedShows();
    StartEmpty({"i", "k"});
  }

  // ---- A hidden delete --------------------------------------------------------------------

  ghost predicate ReachesClean(cfg: Config, net: Net, steps: seq<Step>, end: Net) {
    CleanRun(cfg, net, steps) && Run(cfg, net, steps) == end
  }

  lemma CleanMore(cfg: Config, net: Net, steps: seq<Step>, step: Step)
    requires CleanRun(cfg, net, steps) && LegalRun(cfg, net, steps + [step])
    requires LegalRun(cfg, net, steps) && Clean(Run(cfg, net, steps), step)
    ensures CleanRun(cfg, net, steps + [step])
  {
    hide LegalRun, Run, Clean;
    assert (steps + [step])[..|steps|] == steps;
  }

  lemma CleanFront(cfg: Config, net: Net, steps: seq<Step>)
    requires CleanRun(cfg, net, steps) && steps != []
    ensures var n := |steps| - 1;
      CleanRun(cfg, net, steps[..n]) && LegalRun(cfg, net, steps[..n]) && Clean(Run(cfg, net, steps[..n]), steps[n])
  {
    hide LegalRun, Run, Clean;
  }

  lemma CleanNothing(cfg: Config, net: Net)
    ensures CleanRun(cfg, net, [])
  {
  }

  lemma {:induction false} CleanJoined(cfg: Config, net: Net, steps: seq<Step>, more: seq<Step>)
    requires CleanRun(cfg, net, steps) && LegalRun(cfg, net, steps) && CleanRun(cfg, Run(cfg, net, steps), more)
    ensures CleanRun(cfg, net, steps + more)
  {
    hide LegalRun, Run, Clean, CleanRun;
    if more == [] {
      assert steps + more == steps;
    } else {
      var n, at := |more| - 1, Run(cfg, net, steps);
      CleanFront(cfg, at, more);
      CleanIsLegal(cfg, at, more);
      CleanJoined(cfg, net, steps, more[..n]);
      RunJoined(cfg, net, steps, more[..n]);
      RunJoined(cfg, net, steps, more);
      assert steps + more[..n] + [more[n]] == steps + more;
      CleanMore(cfg, net, steps + more[..n], more[n]);
    }
  }

  lemma {:induction false} NoServeClean(cfg: Config, net: Net, steps: seq<Step>)
    requires LegalRun(cfg, net, steps) && forall step | step in steps :: !step.Serve?
    ensures CleanRun(cfg, net, steps)
  {
    hide LegalRun, Run, CleanRun;
    if steps == [] {
      CleanNothing(cfg, net);
    } else {
      var n := |steps| - 1;
      RunFront(cfg, net, steps);
      NoServeClean(cfg, net, steps[..n]);
      assert steps[..n] + [steps[n]] == steps;
      CleanMore(cfg, net, steps[..n], steps[n]);
    }
  }

  lemma {:induction false} StatementsServeNothing(s: Site, writes: seq<Write>)
    ensures forall step | step in Statements(s, writes) :: !step.Serve?
  {
    if writes != [] { StatementsServeNothing(s, writes[..|writes| - 1]); }
  }

  lemma {:induction false} MergesServeNothing(s: Site, n: nat)
    ensures forall step | step in Merges(s, n) :: !step.Serve?
  {
    if n > 0 { MergesServeNothing(s, n - 1); }
  }

  lemma CleanTransaction(cfg: Config, net: Net, s: Site, writes: seq<Write>, end: Net)
    requires Reaches(cfg, net, Transaction(s, writes), end)
    ensures ReachesClean(cfg, net, Transaction(s, writes), end)
  {
    hide LegalRun, Run, CleanRun;
    StatementsServeNothing(s, writes);
    NoServeClean(cfg, net, Transaction(s, writes));
  }

  lemma CleanReceipt(cfg: Config, net: Net, p: Push, end: Net)
    requires Reaches(cfg, net, Receipt(p), end)
    ensures ReachesClean(cfg, net, Receipt(p), end)
  {
    hide LegalRun, Run, CleanRun;
    MergesServeNothing(p.target, |p.changes|);
    NoServeClean(cfg, net, Receipt(p));
  }

  lemma ReachesCleanMore(cfg: Config, net: Net, steps: seq<Step>, at: Net, more: seq<Step>, end: Net)
    requires ReachesClean(cfg, net, steps, at) && ReachesClean(cfg, at, more, end)
    ensures ReachesClean(cfg, net, steps + more, end)
  {
    hide LegalRun, Run, CleanRun;
    CleanIsLegal(cfg, net, steps);
    CleanIsLegal(cfg, at, more);
    CleanJoined(cfg, net, steps, more);
    RunJoined(cfg, net, steps, more);
  }

  /** One site asks another, and is served, and takes in what it gets. */
  lemma Pulled(cfg: Config, net: Net, j: Site, i: Site, version: int, changes: seq<Change>, end: Net)
    returns (steps: seq<Step>)
    requires net.txs == map[] && i in net.dbs && j in net.dbs && DbVersion(net.dbs[i].clock) == version
    requires Cursor(net, j, i) == 0 < version && changes != [] && MaxVersion(changes) <= version
    requires (set ch | ch in changes) == ReadSet(net.dbs[i], i, 0, Requestor(cfg, j))
    requires MergeAll(net.dbs[j], changes, Next(net, j)).Ok?
    requires end == net.(
      dbs := net.dbs[j := MergeAll(net.dbs[j], changes, Next(net, j)).value],
      cursors := net.cursors[(j, i) := MaxVersion(changes)],
      requests := net.requests + {Request(i, j, 0)}, pushes := net.pushes + {Push(i, j, changes)})
    ensures ReachesClean(cfg, net, steps, end)
  {
    hide LegalRun, Run, CleanRun, MergeAll, ReadSet, MaxVersion, Receipt, DbVersion;
    var asked := net.(requests := net.requests + {Request(i, j, 0)});
    OneStep(cfg, net, Poke(j, i, version));
    NoServeClean(cfg, net, [Poke(j, i, version)]);
    assert ReachesClean(cfg, net, [Poke(j, i, version)], asked);
    var served := asked.(pushes := net.pushes + {Push(i, j, changes)});
    OneStep(cfg, asked, Serve(Request(i, j, 0), changes));
    CleanNothing(cfg, asked);
    NoSteps(cfg, asked);
    assert [] + [Serve(Request(i, j, 0), changes)] == [Serve(Request(i, j, 0), changes)];
    CleanMore(cfg, asked, [], Serve(Request(i, j, 0), changes));
    ReachesCleanMore(cfg, net, [Poke(j, i, version)], asked, [Serve(Request(i, j, 0), changes)], served);
    ReachesReceipt(cfg, served, Push(i, j, changes), end);
    CleanReceipt(cfg, served, Push(i, j, changes), end);
    steps := [Poke(j, i, version)] + [Serve(Request(i, j, 0), changes)] + Receipt(Push(i, j, changes));
    ReachesCleanMore(cfg, net, [Poke(j, i, version)] + [Serve(Request(i, j, 0), changes)], served,
      Receipt(Push(i, j, changes)), end);
  }

  const INSERTED := [Told(ROW_1, 1, "a")]
  const DELETED := [Change(ROW_1, DELETE_CID, NULL, 1, 1, "a"), Change(ROW_1, DELETE_CID, NULL, 1, 2, "b")]

  function AtA(): Db {
    Rows(map[ROW_1 := Own(1)])
  }

  /** b pulled the row, and then deleted it. */
  function AtB(deleted: bool): Db {
    if deleted then Db(map[], map[Cell(ROW_1, COLUMN) := From(1, "a"), Cell(ROW_1, DELETE_CID) := Own(2)])
    else Rows(map[ROW_1 := From(1, "a")])
  }

  /** c learned of the delete through the column entry of a. */
  function AtC(): Db {
    Db(map[], map[Cell(ROW_1, DELETE_CID) := From(1, "a")])
  }

  lemma HiddenVersions()
    ensures DbVersion(AtA().clock) == 1 && DbVersion(AtB(false).clock) == 1 && DbVersion(AtB(true).clock) == 2
    ensures DbVersion(AtC().clock) == 1 && DbVersion(EMPTY.clock) == 0
    ensures MaxVersion(INSERTED) == 1 && MaxVersion(DELETED) == 2
  {
    hide Rows, DbVersion, MaxVersion;
    EmptyRows();
    RowsVersion(map[ROW_1 := Own(1)], ROW_1);
    RowsVersion(map[ROW_1 := From(1, "a")], ROW_1);
    assert Cell(ROW_1, DELETE_CID) in AtB(true).clock && Cell(ROW_1, DELETE_CID) in AtC().clock;
    OneVersion(INSERTED[0]);
    TwoVersions(DELETED[0], DELETED[1]);
  }

  lemma InsertedAtA()
    ensures PermittedAll(TABLE, EMPTY, [Insertion(ROW_1)], 1)
    ensures WriteAll(TABLE, EMPTY, [Insertion(ROW_1)], 1) == AtA()
    ensures MergeAll(EMPTY, INSERTED, 1) == Ok(AtB(false))
  {
    hide PermittedAll, WriteAll, Rows, Merge, MergeAll;
    EmptyRows();
    InsertOne(map[], ROW_1, 1);
    assert map[][ROW_1 := Own(1)] == map[ROW_1 := Own(1)];
    MergeRow(map[], ROW_1, 1, "a", 1);
    assert map[][ROW_1 := From(1, "a")] == map[ROW_1 := From(1, "a")];
    MergeOne(EMPTY, INSERTED[0], 1);
  }

  lemma DeletedAtB()
    ensures PermittedAll(TABLE, AtB(false), [Delete(ROW_1)], 2)
    ensures WriteAll(TABLE, AtB(false), [Delete(ROW_1)], 2) == AtB(true)
  {
    hide Permitted, WriteOne, AtB;
    DeleteRow();
    assert [Delete(ROW_1)][..0] == [];
  }

  lemma DeleteRow()
    ensures Permitted(TABLE, AtB(false), Delete(ROW_1)) && WriteOne(TABLE, AtB(false), Delete(ROW_1), 2) == AtB(true)
  {
    var db, cell := AtB(false), Cell(ROW_1, DELETE_CID);
    RowsAt(map[ROW_1 := From(1, "a")], cell);
    assert db.rows - {ROW_1} == map[];
    assert db.clock[cell := Own(2)] == AtB(true).clock;
  }

  lemma DeletedAtC()
    ensures MergeAll(EMPTY, DELETED, 1) == Ok(AtC()) && MergeAll(AtC(), INSERTED, 2) == Ok(AtC())
  {
    MergeTwo(EMPTY, DELETED[0], DELETED[1], 1);
    MergeOne(AtC(), INSERTED[0], 2);
    assert EMPTY.rows - {ROW_1} == map[];
    assert SetWinnerClock(map[], DELETED[0], 1) == AtC().clock;
  }

  lemma HiddenReads()
    ensures ReadSet(AtA(), "a", 0, Requestor(TABLE, "b")) == (set ch | ch in INSERTED)
    ensures ReadSet(AtA(), "a", 0, Requestor(TABLE, "c")) == (set ch | ch in INSERTED)
    ensures ReadSet(AtB(true), "b", 0, Requestor(TABLE, "c")) == (set ch | ch in DELETED)
  {
    OneVersion(INSERTED[0]);
    TwoVersions(DELETED[0], DELETED[1]);
    assert Cell(ROW_1, COLUMN) in AtA().clock && ReadEntry(AtA(), "a", Cell(ROW_1, COLUMN)) == INSERTED[0];
    var b := AtB(true);
    assert ReadEntry(b, "b", Cell(ROW_1, COLUMN)) == DELETED[0];
    assert ReadEntry(b, "b", Cell(ROW_1, DELETE_CID)) == DELETED[1];
  }

  function Sites(a: Db, b: Db, c: Db): Dbs {
    map["a" := a, "b" := b, "c" := c]
  }

  /** b pulled the row of a. */
  function Spread(b: Db): Net {
    Net(Sites(AtA(), b, EMPTY), map[], map[("b", "a") := 1], {Request("a", "b", 0)}, {Push("a", "b", INSERTED)})
  }

  lemma ReachesSpread() returns (steps: seq<Step>)
    ensures ReachesClean(TABLE, Empty({"a", "b", "c"}), steps, Spread(AtB(true)))
  {
    hide ReachesClean, Reaches, PermittedAll, WriteAll, MergeAll, ReadSet, AtA, AtB, DbVersion, MaxVersion;
    HiddenVersions();
    InsertedAtA();
    DeletedAtB();
    HiddenReads();
    var start := Empty({"a", "b", "c"});
    var net1 := Net(Sites(AtA(), EMPTY, EMPTY), map[], map[], {}, {});
    ReachesTransaction(TABLE, start, "a", [Insertion(ROW_1)], net1);
    CleanTransaction(TABLE, start, "a", [Insertion(ROW_1)], net1);
    var pulled := Pulled(TABLE, net1, "b", "a", 1, INSERTED, Spread(AtB(false)));
    ReachesCleanMore(TABLE, start, Transaction("a", [Insertion(ROW_1)]), net1, pulled, Spread(AtB(false)));
    ReachesTransaction(TABLE, Spread(AtB(false)), "b", [Delete(ROW_1)], Spread(AtB(true)));
    CleanTransaction(TABLE, Spread(AtB(false)), "b", [Delete(ROW_1)], Spread(AtB(true)));
    steps := Transaction("a", [Insertion(ROW_1)]) + pulled;
    ReachesCleanMore(TABLE, start, steps, Spread(AtB(false)), Transaction("b", [Delete(ROW_1)]), Spread(AtB(true)));
    steps := steps + Transaction("b", [Delete(ROW_1)]);
  }

  function Hidden(): Net {
    Net(Sites(AtA(), AtB(true), AtC()), map[], map[("b", "a") := 1, ("c", "b") := 2, ("c", "a") := 1],
        {Request("a", "b", 0), Request("b", "c", 0), Request("a", "c", 0)},
        {Push("a", "b", INSERTED), Push("b", "c", DELETED), Push("a", "c", INSERTED)})
  }

  lemma ReachesHidden() returns (steps: seq<Step>)
    ensures ReachesClean(TABLE, Spread(AtB(true)), steps, Hidden())
  {
    hide ReachesClean, Reaches, MergeAll, ReadSet, AtA, AtB, AtC, DbVersion, MaxVersion;
    HiddenVersions();
    DeletedAtC();
    HiddenReads();
    var start := Spread(AtB(true));
    var told := Net(Sites(AtA(), AtB(true), AtC()), map[], map[("b", "a") := 1, ("c", "b") := 2],
      {Request("a", "b", 0), Request("b", "c", 0)}, {Push("a", "b", INSERTED), Push("b", "c", DELETED)});
    var first := Pulled(TABLE, start, "c", "b", 2, DELETED, told);
    var second := Pulled(TABLE, told, "c", "a", 1, INSERTED, Hidden());
    ReachesCleanMore(TABLE, start, first, told, second, Hidden());
    steps := first + second;
  }

  /** A clean run with a hidden delete: a inserts a row, b pulls and deletes it, c pulls from b and then
      from a. a and c are up to date with each other, c's tombstone carries a's site, a has the row. */
  lemma HiddenDeleteReached() returns (steps: seq<Step>)
    ensures var start := Empty({"a", "b", "c"});
      Start(start) && GoodConfig(TABLE) && CleanRun(TABLE, start, steps) &&
      var end := Run(TABLE, start, steps);
      "a" in end.dbs && "c" in end.dbs && CaughtUp(TABLE, end, "a", "c") && CaughtUp(TABLE, end, "c", "a") &&
      Hides(TABLE, end, "c", "a", ROW_1) && ROW_1 in end.dbs["a"].rows && ROW_1 !in end.dbs["c"].rows &&
      !ShowSame(end.dbs["a"], end.dbs["c"], ROW_1)
  {
    hide LegalRun, Run, CleanRun;
    var start := Empty({"a", "b", "c"});
    var first := ReachesSpread();
    var second := ReachesHidden();
    ReachesCleanMore(TABLE, start, first, Spread(AtB(true)), second, Hidden());
    steps := first + second;
    HiddenShows();
    StartEmpty({"a", "b", "c"});
  }

  lemma HiddenShows()
    ensures var end := Hidden();
      CaughtUp(TABLE, end, "a", "c") && CaughtUp(TABLE, end, "c", "a") &&
      Hides(TABLE, end, "c", "a", ROW_1) && ROW_1 in AtA().rows && ROW_1 !in AtC().rows &&
      !ShowSame(AtA(), AtC(), ROW_1)
  {
    RowsAt(map[ROW_1 := Own(1)], Cell(ROW_1, COLUMN));
  }
}
