/** Replicas that pull from each other: transactions of the application and of received pushes,
    open for several statements, requests that carry a cursor, and pushes, over a network that
    loses, repeats and reorders messages. A replica has one connection, so whatever it reads while
    a transaction is open, it reads with the uncommitted writes. */
module Replication {
  import opened Wrappers
  import opened ByteOrder
  import opened Crdt
  import opened Merging
  import opened Replica
  import opened Domination

  datatype Request = Request(source: Site, target: Site, since: int)
  datatype Push = Push(source: Site, target: Site, changes: seq<Change>)

  /** An open transaction: the database as the connection sees it, and for the transaction of a push
      how many of its changes are merged and whether the cursor is recorded. */
  datatype Tx = Tx(db: Db, push: Option<Push>, merged: nat, recorded: bool)

  type Dbs = map<Site, Db>
  type Txs = map<Site, Tx>
  type Cursors = map<(Site, Site), int>

  /** `dbs` and `cursors` are committed, `txs` the open transactions, at most one at a site.
      `cursors[(j, i)]` is the version of i that j recorded. Messages stay in the network for ever:
      not delivering one is losing it, delivering it again is repeating it. */
  datatype Net = Net(dbs: Dbs, txs: Txs, cursors: Cursors, requests: set<Request>, pushes: set<Push>)

  /** The tables every replica has, and whether reads leave out the changes that carry the
      requestor's site id. */
  datatype Config = Config(schema: map<string, seq<Cid>>, filtered: bool)

  /** A statement by itself is a transaction of one statement. A poke carries a version that its
      sender had committed when it sent it. */
  datatype Step =
    | Begin(site: Site, push: Option<Push>)
    | Statement(site: Site, write: Write)
    | MergeNext(site: Site)
    | Record(site: Site)
    | End(site: Site)
    | Abort(site: Site)
    | Poke(site: Site, peer: Site, version: int)
    | Serve(request: Request, changes: seq<Change>)

  predicate GoodConfig(cfg: Config) {
    forall t | t in cfg.schema :: TableColumns(cfg.schema[t]) && cfg.schema[t] != []
  }

  /** The version a received message raises the cursor to. */
  function MaxVersion(changes: seq<Change>): (m: int)
    ensures m >= 0 && forall ch | ch in changes :: ch.dbVersion <= m
    ensures m == 0 || exists ch :: ch in changes && ch.dbVersion == m
  {
    if changes == [] then 0 else
      var n := |changes| - 1;
      assert changes == changes[..n] + [changes[n]];
      Max(MaxVersion(changes[..n]), changes[n].dbVersion)
  }

  // ---- Local transactions -----------------------------------------------------------------

  /** A write the replication covers: to a table of the schema, seen by its trigger, and not
      bringing a deleted row back. */
  predicate Permitted(cfg: Config, db: Db, w: Write) {
    w.row.tbl in cfg.schema && Seen(db, w, cfg.schema[w.row.tbl]) &&
    (w.Insert? ==> !Tomb(db, w.row)) && LocalWrite(db, w, cfg.schema[w.row.tbl], 1).Ok?
  }

  function WriteOne(cfg: Config, db: Db, w: Write, next: int): Db
    requires Permitted(cfg, db, w)
  {
    LocalWrite(db, w, cfg.schema[w.row.tbl], next).value
  }

  predicate PermittedAll(cfg: Config, db: Db, writes: seq<Write>, next: int)
    decreases |writes|, 0
  {
    writes == [] ||
    (var n := |writes| - 1;
     PermittedAll(cfg, db, writes[..n], next) && Permitted(cfg, WriteAll(cfg, db, writes[..n], next), writes[n]))
  }

  function WriteAll(cfg: Config, db: Db, writes: seq<Write>, next: int): Db
    requires PermittedAll(cfg, db, writes, next)
    decreases |writes|, 1
  {
    if writes == [] then db else
      var n := |writes| - 1;
      WriteOne(cfg, WriteAll(cfg, db, writes[..n], next), writes[n], next)
  }

  // ---- Steps ------------------------------------------------------------------------------

  function Requestor(cfg: Config, site: Site): Option<Site> {
    if cfg.filtered then Some(site) else None
  }

  /** The version that everything written in the current transaction gets, at least. */
  function Next(net: Net, s: Site): int
    requires s in net.dbs
  {
    DbVersion(net.dbs[s].clock) + 1
  }

  /** What the connection of a site reads. */
  function Visible(net: Net, s: Site): Db
    requires s in net.dbs
  {
    if s in net.txs then net.txs[s].db else net.dbs[s]
  }

  function Cursor(net: Net, j: Site, i: Site): int {
    if (j, i) in net.cursors then net.cursors[(j, i)] else 0
  }

  /** The cursor that j reads, recorded in an open transaction or committed. */
  function VisibleCursor(net: Net, j: Site, i: Site): int {
    if j in net.txs && net.txs[j].recorded && net.txs[j].push.Some? && net.txs[j].push.value.source == i
    then MaxVersion(net.txs[j].push.value.changes) else Cursor(net, j, i)
  }

  /** All of a push is merged. */
  predicate AllMerged(tx: Tx) {
    tx.push.Some? && tx.merged == |tx.push.value.changes|
  }

  ghost predicate Enabled(cfg: Config, net: Net, step: Step) {
    match step
    case Begin(s, push) =>
      s in net.dbs && s !in net.txs && (push.Some? ==> push.value in net.pushes && push.value.target == s)
    case Statement(s, w) => s in net.dbs && s in net.txs && Permitted(cfg, net.txs[s].db, w)
    case MergeNext(s) =>
      s in net.dbs && s in net.txs &&
      (var tx := net.txs[s];
       tx.push.Some? && tx.merged < |tx.push.value.changes| &&
       Merge(tx.db, tx.push.value.changes[tx.merged], Next(net, s)).Ok?)
    case Record(s) => s in net.dbs && s in net.txs && AllMerged(net.txs[s]) && !net.txs[s].recorded
    case End(s) => s in net.dbs && s in net.txs && (net.txs[s].push.Some? ==> net.txs[s].recorded)
    case Abort(s) => s in net.dbs && s in net.txs && !net.txs[s].recorded
    case Poke(s, peer, version) => s in net.dbs && peer in net.dbs && version <= DbVersion(net.dbs[peer].clock)
    case Serve(r, changes) =>
      r in net.requests && r.source in net.dbs && changes != [] &&
      (set ch | ch in changes) == ReadSet(Visible(net, r.source), r.source, r.since, Requestor(cfg, r.target))
  }

  function Committed(net: Net, s: Site): Net
    requires s in net.txs
  {
    var tx := net.txs[s];
    net.(dbs := net.dbs[s := tx.db], txs := net.txs - {s},
         cursors := if tx.push.None? then net.cursors
                    else net.cursors[(s, tx.push.value.source) := MaxVersion(tx.push.value.changes)])
  }

  ghost function Do(cfg: Config, net: Net, step: Step): Net
    requires Enabled(cfg, net, step)
  {
    match step
    case Begin(s, push) => net.(txs := net.txs[s := Tx(net.dbs[s], push, 0, false)])
    case Statement(s, w) =>
      net.(txs := net.txs[s := net.txs[s].(db := WriteOne(cfg, net.txs[s].db, w, Next(net, s)))])
    case MergeNext(s) =>
      var tx := net.txs[s];
      var db := Merge(tx.db, tx.push.value.changes[tx.merged], Next(net, s)).value;
      net.(txs := net.txs[s := tx.(db := db, merged := tx.merged + 1)])
    case Record(s) => net.(txs := net.txs[s := net.txs[s].(recorded := true)])
    case End(s) => Committed(net, s)
    case Abort(s) => net.(txs := net.txs - {s})
    case Poke(s, peer, version) =>
      if version <= VisibleCursor(net, s, peer) then net
      else net.(requests := net.requests + {Request(peer, s, VisibleCursor(net, s, peer))})
    case Serve(r, changes) => net.(pushes := net.pushes + {Push(r.source, r.target, changes)})
  }

  /** A poked site asks, since its cursor, if and only if the poke is above that. */
  lemma PokeAsksIff(cfg: Config, net: Net, s: Site, peer: Site, version: int)
    requires Enabled(cfg, net, Poke(s, peer, version))
    ensures var after, ask := Do(cfg, net, Poke(s, peer, version)), Request(peer, s, VisibleCursor(net, s, peer));
      (ask in after.requests <==> ask in net.requests || version > VisibleCursor(net, s, peer)) &&
      forall r | r != ask :: r in after.requests <==> r in net.requests
  {
  }

  // ---- What holds of each replica ---------------------------------------------------------

  /** A deleted row is gone, and every row has an entry. */
  ghost predicate RowEntries(db: Db) {
    forall row | row in db.rows :: !Tomb(db, row) && exists cid :: Cell(row, cid) in db.clock
  }

  /** A column without an entry is NULL. */
  ghost predicate Defaults(db: Db) {
    forall row, cid | row in db.rows && cid in db.rows[row] && Cell(row, cid) !in db.clock :: db.rows[row][cid] == NULL
  }

  ghost predicate Sound(db: Db) {
    RowsPresent(db) && RowEntries(db) && Defaults(db) &&
    forall cell | cell in db.clock :: db.clock[cell].dbVersion > 0
  }

  lemma RowEntriesKept(db: Db, after: Db, row: RowId)
    requires RowEntries(db) && (forall cell | cell in db.clock :: cell in after.clock)
    requires forall r | r in after.rows && r != row :: r in db.rows && (Tomb(after, r) ==> Tomb(db, r))
    requires row in after.rows ==> !Tomb(after, row) && exists cid :: Cell(row, cid) in after.clock
    ensures RowEntries(after)
  {
    forall r | r in after.rows ensures exists cid :: Cell(r, cid) in after.clock {
      if r != row {
        var cid :| Cell(r, cid) in db.clock;
        assert Cell(r, cid) in after.clock;
      }
    }
  }

  lemma InsertDefaults(db: Db, row: RowId, vals: Values, cids: seq<Cid>, clock: map<Cell, Entry>)
    requires Defaults(db) && row !in db.rows && (forall cell | cell in db.clock :: cell in clock)
    requires forall c | c in cids :: Cell(row, c) in clock
    ensures Defaults(Db(db.rows[row := FullRow(vals, cids)], clock))
  {
  }

  lemma UpdateDefaults(db: Db, row: RowId, vals: Values, clock: map<Cell, Entry>)
    requires Defaults(db) && row in db.rows && (forall cell | cell in db.clock :: cell in clock)
    requires forall c | c in vals :: vals[c] == Column(db, row, c) || Cell(row, c) in clock
    ensures Defaults(Db(db.rows[row := db.rows[row] + vals], clock))
  {
  }

  lemma DeleteDefaults(db: Db, row: RowId, clock: map<Cell, Entry>)
    requires Defaults(db) && (forall cell | cell in db.clock :: cell in clock)
    ensures Defaults(Db(db.rows - {row}, clock))
  {
  }

  /** Every column that changes its value gets an entry. */
  lemma ChangedSeen(db: Db, w: Write, cids: seq<Cid>)
    requires w.Update? && w.row in db.rows && Seen(db, w, cids)
    ensures var changed := Changed(db.rows[w.row], db.rows[w.row] + w.vals, cids);
      (forall c | c in w.vals :: w.vals[c] == Column(db, w.row, c) || c in changed) &&
      (forall c | c in changed :: c in cids)
  {
    ChangedMembers(db.rows[w.row], db.rows[w.row] + w.vals, cids);
  }

  lemma InsertResult(cfg: Config, db: Db, w: Write, next: int)
    requires Permitted(cfg, db, w) && w.Insert?
    ensures var cids := cfg.schema[w.row.tbl];
      w.row !in db.rows && !Tomb(db, w.row) &&
      WriteOne(cfg, db, w, next) == Db(db.rows[w.row := FullRow(w.vals, cids)], BumpAll(db.clock, w.row, cids, next))
    ensures LocalWrite(db, w, cfg.schema[w.row.tbl], next) == Ok(WriteOne(cfg, db, w, next))
  {
  }

  lemma InsertSound(cfg: Config, db: Db, w: Write, next: int)
    requires GoodConfig(cfg) && Sound(db) && Permitted(cfg, db, w) && w.Insert? && next > 0
    ensures Sound(WriteOne(cfg, db, w, next))
  {
    hide BumpAll, RowsPresent, Defaults, RowEntries, LocalWrite, WriteOne, FullRow, Seen;
    var cids := cfg.schema[w.row.tbl];
    InsertResult(cfg, db, w, next);
    LocalWriteKeepsRows(db, w, cids, next);
    BumpAllCells(db.clock, w.row, cids, next);
    var after := WriteOne(cfg, db, w, next);
    InsertDefaults(db, w.row, w.vals, cids, after.clock);
    assert cids[0] in cids && Cell(w.row, cids[0]) in after.clock;
    RowEntriesKept(db, after, w.row);
  }

  lemma UpdateResult(cfg: Config, db: Db, w: Write, next: int)
    requires Permitted(cfg, db, w) && w.Update? && w.row in db.rows
    ensures var cids, vals := cfg.schema[w.row.tbl], db.rows[w.row] + w.vals;
      WriteOne(cfg, db, w, next) ==
        Db(db.rows[w.row := vals], BumpAll(db.clock, w.row, Changed(db.rows[w.row], vals, cids), next))
    ensures LocalWrite(db, w, cfg.schema[w.row.tbl], next) == Ok(WriteOne(cfg, db, w, next))
  {
  }

  lemma RowHasEntry(db: Db, row: RowId) returns (cid: Cid)
    requires RowEntries(db) && row in db.rows
    ensures !Tomb(db, row) && Cell(row, cid) in db.clock
  {
    cid :| Cell(row, cid) in db.clock;
  }

  lemma UpdateSound(cfg: Config, db: Db, w: Write, next: int)
    requires GoodConfig(cfg) && Sound(db) && Permitted(cfg, db, w) && w.Update? && w.row in db.rows && next > 0
    ensures Sound(WriteOne(cfg, db, w, next))
  {
    hide BumpAll, Changed, SqlNotEqual, RowsPresent, Defaults, RowEntries, LocalWrite, WriteOne, Seen;
    var cids := cfg.schema[w.row.tbl];
    var changed := Changed(db.rows[w.row], db.rows[w.row] + w.vals, cids);
    UpdateResult(cfg, db, w, next);
    LocalWriteKeepsRows(db, w, cids, next);
    ChangedSeen(db, w, cids);
    BumpAllCells(db.clock, w.row, changed, next);
    var after := WriteOne(cfg, db, w, next);
    var cid := RowHasEntry(db, w.row);
    UpdateDefaults(db, w.row, w.vals, after.clock);
    assert Cell(w.row, cid) in after.clock;
    RowEntriesKept(db, after, w.row);
  }

  lemma DeleteResult(cfg: Config, db: Db, w: Write, next: int)
    requires Permitted(cfg, db, w) && w.Delete?
    ensures WriteOne(cfg, db, w, next) ==
      if w.row in db.rows then Db(db.rows - {w.row}, Bump(db.clock, Cell(w.row, DELETE_CID), next)) else db
    ensures LocalWrite(db, w, cfg.schema[w.row.tbl], next) == Ok(WriteOne(cfg, db, w, next))
  {
  }

  lemma DeleteSound(cfg: Config, db: Db, w: Write, next: int)
    requires GoodConfig(cfg) && Sound(db) && Permitted(cfg, db, w) && w.Delete? && next > 0
    ensures Sound(WriteOne(cfg, db, w, next))
  {
    hide RowsPresent, RowEntries, Defaults, LocalWrite, WriteOne, Seen;
    DeleteResult(cfg, db, w, next);
    LocalWriteKeepsRows(db, w, cfg.schema[w.row.tbl], next);
    if w.row in db.rows {
      var after := WriteOne(cfg, db, w, next);
      DeleteDefaults(db, w.row, after.clock);
      RowEntriesKept(db, after, w.row);
    }
  }

  lemma WriteOneAdvances(cfg: Config, db: Db, w: Write, b: int)
    requires GoodConfig(cfg) && RowsPresent(db) && Permitted(cfg, db, w)
    ensures Advances(db, WriteOne(cfg, db, w, b + 1), b)
    ensures w.Update? && w.row !in db.rows ==> WriteOne(cfg, db, w, b + 1) == db
  {
    hide Advances, RowsPresent;
    LocalWriteAdvances(db, w, cfg.schema[w.row.tbl], b);
  }

  lemma SoundRows(db: Db)
    requires Sound(db)
    ensures RowsPresent(db)
  {
  }

  lemma WriteOneSound(cfg: Config, db: Db, w: Write, b: int)
    requires GoodConfig(cfg) && Sound(db) && Permitted(cfg, db, w) && b >= 0
    ensures Sound(WriteOne(cfg, db, w, b + 1)) && Advances(db, WriteOne(cfg, db, w, b + 1), b)
  {
    hide Sound, Advances, WriteOne, Permitted, GoodConfig;
    SoundRows(db);
    WriteOneAdvances(cfg, db, w, b);
    match w
    case Insert(_, _) => InsertSound(cfg, db, w, b + 1);
    case Update(_, _) => if w.row in db.rows { UpdateSound(cfg, db, w, b + 1); }
    case Delete(_) => DeleteSound(cfg, db, w, b + 1);
  }

  /** An entry that was left alone. */
  ghost predicate Kept(front: Db, after: Db, cell: Cell)
    requires cell in after.clock
  {
    cell in front.clock && after.clock[cell] == front.clock[cell] &&
    (Tomb(after, cell.row) || !IsColumn(cell) || StampOf(after, cell) == StampOf(front, cell))
  }

  /** Every entry is this database's own or was there before. */
  ghost predicate OwnEntries(db: Db, after: Db) {
    forall cell | cell in after.clock ::
      after.clock[cell].site == None || Kept(db, after, cell)
  }

  /** Local writes make entries of no other site. */
  lemma WriteOneSites(cfg: Config, db: Db, w: Write, next: int)
    requires Permitted(cfg, db, w)
    ensures OwnEntries(db, WriteOne(cfg, db, w, next))
  {
    hide WriteOne, Permitted, OwnEntries, LocalWrite, Seen, Bump;
    match w
    case Insert(_, _) => InsertSites(cfg, db, w, next);
    case Update(_, _) => UpdateSites(cfg, db, w, next);
    case Delete(_) => DeleteSites(cfg, db, w, next);
  }

  lemma InsertSites(cfg: Config, db: Db, w: Write, next: int)
    requires Permitted(cfg, db, w) && w.Insert?
    ensures OwnEntries(db, WriteOne(cfg, db, w, next))
  {
    hide WriteOne, LocalWrite, BumpAll, FullRow, Seen;
    InsertResult(cfg, db, w, next);
    InsertNulls(w.vals, cfg, w.row);
    BumpAllCells(db.clock, w.row, cfg.schema[w.row.tbl], next);
  }

  /** A column that is not of the table is not stored. */
  lemma InsertNulls(vals: Values, cfg: Config, row: RowId)
    requires row.tbl in cfg.schema
    ensures forall c | c in FullRow(vals, cfg.schema[row.tbl]) :: c in cfg.schema[row.tbl]
  {
  }

  lemma UpdateSites(cfg: Config, db: Db, w: Write, next: int)
    requires Permitted(cfg, db, w) && w.Update?
    ensures OwnEntries(db, WriteOne(cfg, db, w, next))
  {
    hide WriteOne, LocalWrite, BumpAll, Changed, Seen;
    if w.row in db.rows {
      UpdateResult(cfg, db, w, next);
      ChangedSeen(db, w, cfg.schema[w.row.tbl]);
      BumpAllCells(db.clock, w.row, Changed(db.rows[w.row], db.rows[w.row] + w.vals, cfg.schema[w.row.tbl]), next);
    } else {
      UpdateNothing(cfg, db, w, next);
      OwnEntriesSelf(db);
    }
  }

  lemma UpdateNothing(cfg: Config, db: Db, w: Write, next: int)
    requires Permitted(cfg, db, w) && w.Update? && w.row !in db.rows
    ensures WriteOne(cfg, db, w, next) == db
  {
  }

  lemma DeleteSites(cfg: Config, db: Db, w: Write, next: int)
    requires Permitted(cfg, db, w) && w.Delete?
    ensures OwnEntries(db, WriteOne(cfg, db, w, next))
  {
    hide WriteOne, Permitted, LocalWrite, Seen;
    DeleteResult(cfg, db, w, next);
  }

  lemma KeptLater(x: Db, y: Db, z: Db, cell: Cell, b: int)
    requires cell in z.clock && Kept(y, z, cell) && Kept(x, y, cell) && Advances(y, z, b)
    ensures Kept(x, z, cell)
  {
    assert Tomb(y, cell.row) ==> Tomb(z, cell.row);
  }

  lemma OwnEntriesLater(x: Db, y: Db, z: Db, b: int)
    requires OwnEntries(x, y) && OwnEntries(y, z) && Advances(y, z, b)
    ensures OwnEntries(x, z)
  {
    hide Kept, Advances;
    forall cell | cell in z.clock && z.clock[cell].site.Some? ensures Kept(x, z, cell) {
      KeptEntry(y, z, cell);
      KeptLater(x, y, z, cell, b);
    }
  }

  lemma KeptEntry(front: Db, after: Db, cell: Cell)
    requires cell in after.clock && Kept(front, after, cell)
    ensures cell in front.clock && after.clock[cell] == front.clock[cell]
  {
  }

  lemma OwnEntriesSelf(db: Db)
    ensures OwnEntries(db, db)
  {
  }

  lemma {:induction false} WriteAllSound(cfg: Config, db: Db, writes: seq<Write>, b: int)
    requires GoodConfig(cfg) && Sound(db) && PermittedAll(cfg, db, writes, b + 1) && b >= 0
    ensures Sound(WriteAll(cfg, db, writes, b + 1)) && Advances(db, WriteAll(cfg, db, writes, b + 1), b)
    ensures OwnEntries(db, WriteAll(cfg, db, writes, b + 1))
  {
    hide Advances, Sound, WriteOne, Permitted, GoodConfig, OwnEntries;
    if writes == [] {
      AdvancesSelf(db, b);
      OwnEntriesSelf(db);
    } else {
      var n := |writes| - 1;
      WriteAllSound(cfg, db, writes[..n], b);
      var front := WriteAll(cfg, db, writes[..n], b + 1);
      WriteOneSound(cfg, front, writes[n], b);
      WriteOneSites(cfg, front, writes[n], b + 1);
      var after := WriteOne(cfg, front, writes[n], b + 1);
      AdvancesTransitive(db, front, after, b);
      OwnEntriesLater(db, front, after, b);
    }
  }

  lemma EntryHasRow(db: Db, ch: Change)
    requires RowsPresent(db) && CellOf(ch) in db.clock && !Tomb(db, ch.row)
    ensures ch.row in db.rows
  {
  }

  lemma WinDefaults(db: Db, ch: Change, e: Entry)
    requires Defaults(db)
    ensures Defaults(Db(SetColumn(db.rows, ch.row, ch.cid, ch.val), db.clock[CellOf(ch) := e]))
  {
  }

  lemma MergeSound(db: Db, ch: Change, next: int)
    requires Sound(db) && next > 0
    ensures Merge(db, ch, next).Ok? && Sound(Merge(db, ch, next).value)
  {
    hide RowsPresent, Merge, Defaults, RowEntries;
    MergeSucceeds(db, ch, next);
    if CellOf(ch) in db.clock && !Tomb(db, ch.row) { EntryHasRow(db, ch); }
    MergeCases(db, ch, next);
    var after, e := Merge(db, ch, next).value, Entry(ch.colVersion, Max(next, ch.dbVersion), Some(ch.site));
    DeleteDefaults(db, ch.row, db.clock[CellOf(ch) := e]);
    WinDefaults(db, ch, e);
    assert after != db && ch.row in after.rows ==> CellOf(ch) in after.clock;
    if after != db { RowEntriesKept(db, after, ch.row); }
  }

  /** Where an entry comes from: it was there before, or a merged change made it and gave the
      column its value. */
  ghost predicate ComesFrom(db: Db, after: Db, changes: seq<Change>, cell: Cell)
    requires cell in after.clock
  {
    Kept(db, after, cell) ||
    exists ch :: ch in changes && CellOf(ch) == cell && after.clock[cell].site == Some(ch.site) &&
                 (IsColumn(cell) && !Tomb(after, cell.row) ==> StampOf(after, cell) == StampOfChange(ch))
  }

  lemma MergeComesFrom(db: Db, ch: Change, next: int, cell: Cell)
    requires RowsPresent(db) && Merge(db, ch, next).Ok? && cell in Merge(db, ch, next).value.clock
    ensures var after := Merge(db, ch, next).value;
      Kept(db, after, cell) ||
      (CellOf(ch) == cell && after.clock[cell].site == Some(ch.site) &&
       (IsColumn(cell) && !Tomb(after, cell.row) ==> StampOf(after, cell) == StampOfChange(ch)))
  {
    hide Lt;
  }

  lemma {:induction false} MergeAllSound(db: Db, changes: seq<Change>, b: int)
    requires Sound(db) && b >= 0
    ensures MergeAll(db, changes, b + 1).Ok? && Sound(MergeAll(db, changes, b + 1).value)
    ensures var after := MergeAll(db, changes, b + 1).value;
      forall cell | cell in after.clock :: ComesFrom(db, after, changes, cell)
  {
    hide Sound, RowsPresent, Merge, Advances;
    if changes != [] {
      var n := |changes| - 1;
      MergeAllSound(db, changes[..n], b);
      var front := MergeAll(db, changes[..n], b + 1).value;
      MergeSound(front, changes[n], b + 1);
      SoundRows(front);
      MergeAdvances(front, changes[n], b);
      var after := Merge(front, changes[n], b + 1).value;
      forall cell | cell in after.clock ensures ComesFrom(db, after, changes, cell) {
        MergeComesFrom(front, changes[n], b + 1, cell);
        if Kept(front, after, cell) {
          ComesFromLater(db, front, after, changes, cell, b);
        } else {
          assert changes[n] in changes;
        }
      }
    }
  }

  lemma ComesFromLater(db: Db, front: Db, after: Db, changes: seq<Change>, cell: Cell, b: int)
    requires changes != [] && cell in after.clock && Kept(front, after, cell) && Advances(front, after, b)
    requires ComesFrom(db, front, changes[..|changes| - 1], cell)
    ensures ComesFrom(db, after, changes, cell)
  {
    assert forall ch | ch in changes[..|changes| - 1] :: ch in changes;
    assert Tomb(front, cell.row) ==> Tomb(after, cell.row);
  }
}
