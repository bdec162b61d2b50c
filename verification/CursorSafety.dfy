/** What the cursors of a network of replicas are worth: on every run in which no read returns
    what a transaction still open wrote, everything up to a cursor is there, whatever happened to
    the messages, but for the deletes that a site filter keeps back; and exactly which rows
    replicas agree on whose cursors cover each other. */
module CursorSafety {
  import opened Wrappers
  import opened Crdt
  import opened Merging
  import opened Replica
  import opened Domination
  import opened Replication
  import opened Transactions

  // ---- The invariant ----------------------------------------------------------------------

  /** A tombstone of i that a filtered read for a site leaves out. */
  predicate Withheld(cfg: Config, site: Site, i: Db, cell: Cell)
    requires cell in i.clock
  {
    cfg.filtered && !IsColumn(cell) && i.clock[cell].site == Some(site)
  }

  /** Up to a version, j at a site has everything of i that is not kept back from it. */
  ghost predicate Known(cfg: Config, site: Site, j: Db, i: Db, upto: int) {
    upto <= DbVersion(i.clock) &&
    forall cell | cell in i.clock && i.clock[cell].dbVersion <= upto ::
      Covered(j, i, cell) || Withheld(cfg, site, i, cell)
  }

  /** What a push from i is worth to j: up to its largest version, what j does not have yet and is
      not kept back is answered by the push. */
  ghost predicate Bears(cfg: Config, site: Site, j: Db, i: Db, changes: seq<Change>) {
    MaxVersion(changes) <= DbVersion(i.clock) &&
    forall cell | cell in i.clock && i.clock[cell].dbVersion <= MaxVersion(changes) ::
      Covered(j, i, cell) || Withheld(cfg, site, i, cell) || Answered(changes, i, cell)
  }

  ghost predicate Answered(changes: seq<Change>, i: Db, cell: Cell)
    requires cell in i.clock
  {
    exists ch :: ch in changes && Answers(ch, i, cell)
  }

  /** What can no longer be undone: the committed databases, and the transactions that recorded
      their cursor. */
  function Settled(dbs: Dbs, txs: Txs): Dbs {
    map s | s in dbs :: if s in txs && txs[s].recorded then txs[s].db else dbs[s]
  }

  ghost predicate CursorsKnown(cfg: Config, dbs: Dbs, cursors: Cursors) {
    forall p | p in cursors :: p.0 in dbs && p.1 in dbs && Known(cfg, p.0, dbs[p.0], dbs[p.1], cursors[p])
  }

  /** A request may carry a cursor that is recorded and not yet committed. */
  ghost predicate RequestsKnown(cfg: Config, settled: Dbs, dbs: Dbs, requests: set<Request>) {
    forall r | r in requests :: r.source in dbs && r.target in settled &&
      Known(cfg, r.target, settled[r.target], dbs[r.source], r.since)
  }

  ghost predicate PushesBear(cfg: Config, settled: Dbs, dbs: Dbs, pushes: set<Push>) {
    forall p | p in pushes :: p.source in dbs && p.target in settled &&
      Bears(cfg, p.target, settled[p.target], dbs[p.source], p.changes)
  }

  ghost predicate HasRow(db: Db, row: RowId) {
    exists cid :: Cell(row, cid) in db.clock
  }

  /** Whatever carries a site id, that site knows the row of, and a column it has. */
  ghost predicate EntryHome(dbs: Dbs, i: Db, cell: Cell)
    requires cell in i.clock
  {
    var site := i.clock[cell].site;
    site == None ||
    (site.value in dbs && HasRow(dbs[site.value], cell.row) && (IsColumn(cell) ==> Covered(dbs[site.value], i, cell)))
  }

  ghost predicate EntriesHome(dbs: Dbs) {
    forall i, cell | i in dbs && cell in dbs[i].clock :: EntryHome(dbs, dbs[i], cell)
  }

  ghost predicate ChangeHome(dbs: Dbs, ch: Change) {
    ch.site in dbs && HasRow(dbs[ch.site], ch.row) && (ch.cid != DELETE_CID ==> Absorbed(dbs[ch.site], ch))
  }

  ghost predicate ChangesHome(dbs: Dbs, changes: seq<Change>) {
    forall ch | ch in changes :: ChangeHome(dbs, ch)
  }

  ghost predicate PushesHome(dbs: Dbs, pushes: set<Push>) {
    forall p | p in pushes :: ChangesHome(dbs, p.changes)
  }

  /** Where a transaction replaced an entry by that of another site, the site has what was there. */
  ghost predicate Superseded(dbs: Dbs, base: Db, db: Db) {
    forall cell | cell in base.clock && cell in db.clock && db.clock[cell] != base.clock[cell] &&
                  db.clock[cell].site.Some? ::
      IsColumn(cell) && db.clock[cell].site.value in dbs && Covered(dbs[db.clock[cell].site.value], base, cell)
  }

  ghost predicate TxHome(dbs: Dbs, base: Db, db: Db) {
    (forall cell | cell in db.clock :: EntryHome(dbs, db, cell)) && Superseded(dbs, base, db)
  }

  ghost predicate TxsHome(dbs: Dbs, txs: Txs) {
    forall s | s in txs :: s in dbs && TxHome(dbs, dbs[s], txs[s].db)
  }

  ghost predicate SomeAbsorbed(db: Db, changes: seq<Change>, n: nat) {
    n <= |changes| && forall k | 0 <= k < n :: Absorbed(db, changes[k])
  }

  ghost predicate TxPush(s: Site, tx: Tx, pushes: set<Push>) {
    (tx.recorded ==> AllMerged(tx)) &&
    (tx.push.Some? ==>
      tx.push.value in pushes && tx.push.value.target == s && SomeAbsorbed(tx.db, tx.push.value.changes, tx.merged))
  }

  ghost predicate TxsPush(txs: Txs, pushes: set<Push>) {
    forall s | s in txs :: TxPush(s, txs[s], pushes)
  }

  ghost predicate Inv(cfg: Config, net: Net) {
    Basic(net.dbs, net.txs) && TxsPush(net.txs, net.pushes) && TxsHome(net.dbs, net.txs) &&
    CursorsKnown(cfg, net.dbs, net.cursors) &&
    RequestsKnown(cfg, Settled(net.dbs, net.txs), net.dbs, net.requests) &&
    PushesBear(cfg, Settled(net.dbs, net.txs), net.dbs, net.pushes) &&
    EntriesHome(net.dbs) && PushesHome(net.dbs, net.pushes)
  }

  // ---- Replicas only move forward ---------------------------------------------------------

  /** An entry that was there up to a version is still the same. */
  lemma FollowsEntry(x: Db, y: Db, cell: Cell)
    requires Follows(x, y) && cell in y.clock && y.clock[cell].dbVersion <= DbVersion(x.clock)
    ensures cell in x.clock && y.clock[cell] == x.clock[cell]
  {
  }

  lemma KnownStays(cfg: Config, site: Site, j: Db, j2: Db, i: Db, i2: Db, upto: int)
    requires Grows(j, j2) && Follows(i, i2) && Known(cfg, site, j, i, upto)
    ensures Known(cfg, site, j2, i2, upto)
  {
    hide Advances, Covered;
    forall cell | cell in i2.clock && i2.clock[cell].dbVersion <= upto
      ensures Covered(j2, i2, cell) || Withheld(cfg, site, i2, cell)
    {
      FollowsEntry(i, i2, cell);
      if Covered(j, i, cell) { CoveredStays(j, j2, 0, i, i2, cell); }
    }
  }

  lemma AnsweredStays(changes: seq<Change>, i: Db, i2: Db, cell: Cell)
    requires Follows(i, i2) && cell in i.clock && cell in i2.clock && i2.clock[cell].dbVersion <= DbVersion(i.clock)
    requires Answered(changes, i, cell)
    ensures Answered(changes, i2, cell)
  {
    hide Advances, Answers;
    var ch :| ch in changes && Answers(ch, i, cell);
    AnswersStays(ch, i, i2, cell);
  }

  lemma BearsStays(cfg: Config, site: Site, j: Db, j2: Db, i: Db, i2: Db, changes: seq<Change>)
    requires Grows(j, j2) && Follows(i, i2) && Bears(cfg, site, j, i, changes)
    ensures Bears(cfg, site, j2, i2, changes)
  {
    hide Advances, Covered, Answered;
    forall cell | cell in i2.clock && i2.clock[cell].dbVersion <= MaxVersion(changes)
      ensures Covered(j2, i2, cell) || Withheld(cfg, site, i2, cell) || Answered(changes, i2, cell)
    {
      FollowsEntry(i, i2, cell);
      if Covered(j, i, cell) {
        CoveredStays(j, j2, 0, i, i2, cell);
      } else if Answered(changes, i, cell) {
        AnsweredStays(changes, i, i2, cell);
      }
    }
  }

  lemma CoveredGrows(j: Db, j2: Db, i: Db, cell: Cell)
    requires Grows(j, j2) && cell in i.clock && Covered(j, i, cell)
    ensures Covered(j2, i, cell)
  {
    hide Advances, Covered;
    AdvancesSelf(i, DbVersion(i.clock));
    CoveredStays(j, j2, 0, i, i, cell);
  }

  ghost predicate AllFollow(dbs: Dbs, after: Dbs) {
    dbs.Keys == after.Keys && forall s | s in dbs :: Follows(dbs[s], after[s])
  }

  ghost predicate AllGrow(dbs: Dbs, after: Dbs) {
    dbs.Keys == after.Keys && forall s | s in dbs :: Grows(dbs[s], after[s])
  }

  lemma AllFollowSelf(dbs: Dbs)
    requires AllSound(dbs)
    ensures AllFollow(dbs, dbs)
  {
    hide Sound, Follows;
    forall t | t in dbs ensures Follows(dbs[t], dbs[t]) { FollowsSelf(dbs[t]); }
  }

  lemma OneFollows(dbs: Dbs, s: Site, db: Db)
    requires AllSound(dbs) && s in dbs && Follows(dbs[s], db)
    ensures AllFollow(dbs, dbs[s := db]) && AllGrow(dbs, dbs[s := db])
  {
    hide Sound, Follows, Grows;
    forall t | t in dbs ensures Follows(dbs[t], dbs[s := db][t]) && Grows(dbs[t], dbs[s := db][t]) {
      FollowsSelf(dbs[t]);
      FollowsGrows(dbs[t], dbs[s := db][t]);
    }
  }

  lemma OneGrows(dbs: Dbs, s: Site, db: Db)
    requires s in dbs && Grows(dbs[s], db)
    ensures AllGrow(dbs, dbs[s := db])
  {
    hide Grows;
    forall t | t in dbs ensures Grows(dbs[t], dbs[s := db][t]) { GrowsSelf(dbs[t]); }
  }

  lemma CursorsStay(cfg: Config, dbs: Dbs, after: Dbs, cursors: Cursors)
    requires AllFollow(dbs, after) && AllGrow(dbs, after) && CursorsKnown(cfg, dbs, cursors)
    ensures CursorsKnown(cfg, after, cursors)
  {
    hide Known, Follows, Grows;
    forall p | p in cursors ensures Known(cfg, p.0, after[p.0], after[p.1], cursors[p]) {
      KnownStays(cfg, p.0, dbs[p.0], after[p.0], dbs[p.1], after[p.1], cursors[p]);
    }
  }

  lemma RequestsStay(cfg: Config, settled: Dbs, settled2: Dbs, dbs: Dbs, after: Dbs, requests: set<Request>)
    requires AllGrow(settled, settled2) && AllFollow(dbs, after) && RequestsKnown(cfg, settled, dbs, requests)
    ensures RequestsKnown(cfg, settled2, after, requests)
  {
    hide Known, Follows, Grows;
    forall r | r in requests ensures Known(cfg, r.target, settled2[r.target], after[r.source], r.since) {
      KnownStays(cfg, r.target, settled[r.target], settled2[r.target], dbs[r.source], after[r.source], r.since);
    }
  }

  lemma PushesStay(cfg: Config, settled: Dbs, settled2: Dbs, dbs: Dbs, after: Dbs, pushes: set<Push>)
    requires AllGrow(settled, settled2) && AllFollow(dbs, after) && PushesBear(cfg, settled, dbs, pushes)
    ensures PushesBear(cfg, settled2, after, pushes)
  {
    hide Bears, Follows, Grows;
    forall p | p in pushes ensures Bears(cfg, p.target, settled2[p.target], after[p.source], p.changes) {
      BearsStays(cfg, p.target, settled[p.target], settled2[p.target], dbs[p.source], after[p.source], p.changes);
    }
  }

  lemma HasRowStays(x: Db, y: Db, row: RowId)
    requires Grows(x, y) && HasRow(x, row)
    ensures HasRow(y, row)
  {
    var cid :| Cell(row, cid) in x.clock;
    assert Cell(row, cid) in y.clock;
  }

  lemma ChangeHomeStays(dbs: Dbs, after: Dbs, ch: Change)
    requires AllGrow(dbs, after) && ChangeHome(dbs, ch)
    ensures ChangeHome(after, ch)
  {
    hide Absorbed, Advances, HasRow;
    HasRowStays(dbs[ch.site], after[ch.site], ch.row);
    if ch.cid != DELETE_CID { AbsorbedStays(dbs[ch.site], after[ch.site], 0, ch); }
  }

  lemma PushesHomeStay(dbs: Dbs, after: Dbs, pushes: set<Push>)
    requires AllGrow(dbs, after) && PushesHome(dbs, pushes)
    ensures PushesHome(after, pushes)
  {
    hide ChangeHome, AllGrow;
    forall p, ch | p in pushes && ch in p.changes ensures ChangeHome(after, ch) {
      assert ChangesHome(dbs, p.changes);
      ChangeHomeStays(dbs, after, ch);
    }
  }

  lemma EntryHomeStays(dbs: Dbs, after: Dbs, i: Db, cell: Cell)
    requires AllGrow(dbs, after) && cell in i.clock && EntryHome(dbs, i, cell)
    ensures EntryHome(after, i, cell)
  {
    hide Grows, Covered, HasRow;
    var site := i.clock[cell].site;
    if site.Some? {
      HasRowStays(dbs[site.value], after[site.value], cell.row);
      if IsColumn(cell) { CoveredGrows(dbs[site.value], after[site.value], i, cell); }
    }
  }

  lemma TxHomeStays(dbs: Dbs, after: Dbs, base: Db, db: Db)
    requires AllGrow(dbs, after) && TxHome(dbs, base, db)
    ensures TxHome(after, base, db)
  {
    hide EntryHome, Grows, Covered;
    forall cell | cell in db.clock ensures EntryHome(after, db, cell) { EntryHomeStays(dbs, after, db, cell); }
    forall cell | cell in base.clock && cell in db.clock && db.clock[cell] != base.clock[cell] &&
                  db.clock[cell].site.Some?
      ensures IsColumn(cell) && Covered(after[db.clock[cell].site.value], base, cell)
    {
      var site := db.clock[cell].site.value;
      CoveredGrows(dbs[site], after[site], base, cell);
    }
  }

  // ---- Settled databases ------------------------------------------------------------------

  lemma SettledGrows(dbs: Dbs, txs: Txs)
    requires Basic(dbs, txs)
    ensures AllGrow(dbs, Settled(dbs, txs))
  {
    hide Sound, Opened, Grows;
    forall s | s in dbs ensures Grows(dbs[s], Settled(dbs, txs)[s]) {
      GrowsSelf(dbs[s]);
      if s in txs { OpenedFollows(dbs[s], txs[s].db); }
    }
  }

  lemma SettledTx(dbs: Dbs, txs: Txs, s: Site, tx: Tx)
    requires s in dbs
    ensures Settled(dbs, txs[s := tx]) == Settled(dbs, txs)[s := if tx.recorded then tx.db else dbs[s]]
  {
  }

  lemma SettledAbort(dbs: Dbs, txs: Txs, s: Site)
    requires s in txs && !txs[s].recorded
    ensures Settled(dbs, txs - {s}) == Settled(dbs, txs)
  {
  }

  lemma SettledEnd(dbs: Dbs, txs: Txs, s: Site)
    requires s in dbs && s in txs
    ensures Settled(dbs[s := txs[s].db], txs - {s}) == Settled(dbs, txs)[s := txs[s].db]
  {
  }

  lemma SettledSame(dbs: Dbs, txs: Txs, s: Site)
    requires s in dbs
    ensures Settled(dbs, txs)[s] == if s in txs && txs[s].recorded then txs[s].db else dbs[s]
    ensures Settled(dbs, txs)[s := Settled(dbs, txs)[s]] == Settled(dbs, txs)
  {
  }

  // ---- A transaction goes on --------------------------------------------------------------

  lemma EntryHomeKept(dbs: Dbs, x: Db, y: Db, cell: Cell)
    requires cell in y.clock && Kept(x, y, cell) && Grows(x, y) && EntryHome(dbs, x, cell)
    ensures EntryHome(dbs, y, cell)
  {
    hide HasRow, Le;
  }

  /** A statement makes entries of no other site. */
  lemma StatementHome(dbs: Dbs, base: Db, x: Db, y: Db)
    requires TxHome(dbs, base, x) && OwnEntries(x, y) && Grows(x, y)
    ensures TxHome(dbs, base, y)
  {
    hide EntryHome, Kept, Grows, Covered;
    forall cell | cell in y.clock && y.clock[cell].site.Some? ensures EntryHome(dbs, y, cell) {
      KeptEntry(x, y, cell);
      EntryHomeKept(dbs, x, y, cell);
    }
    forall cell | cell in y.clock && y.clock[cell].site.None? ensures EntryHome(dbs, y, cell) {
      LocalHome(dbs, y, cell);
    }
    forall cell | cell in y.clock && y.clock[cell].site.Some?
      ensures cell in x.clock && y.clock[cell] == x.clock[cell]
    {
      KeptEntry(x, y, cell);
    }
  }

  lemma LocalHome(dbs: Dbs, i: Db, cell: Cell)
    requires cell in i.clock && i.clock[cell].site == None
    ensures EntryHome(dbs, i, cell)
  {
  }

  /** An entry made by a change is at home where the change is, and so is what it replaced. */
  lemma MadeHome(dbs: Dbs, base: Db, x: Db, y: Db, ch: Change, cell: Cell)
    requires cell in y.clock && MadeBy(x, y, ch, cell) && ChangeHome(dbs, ch) && Opened(base, x) && Grows(x, y)
    ensures EntryHome(dbs, y, cell)
    ensures cell in base.clock ==> IsColumn(cell) && Covered(dbs[ch.site], base, cell)
  {
    hide HasRow, Le, Sound;
    if cell in base.clock && IsColumn(cell) && !Tomb(dbs[ch.site], cell.row) {
      LeTransitive(StampOf(base, cell), StampOf(x, cell), StampOf(y, cell));
      LeTransitive(StampOf(base, cell), StampOf(y, cell), StampOf(dbs[ch.site], cell));
    }
  }

  lemma MergeHome(dbs: Dbs, base: Db, x: Db, y: Db, ch: Change)
    requires TxHome(dbs, base, x) && ChangeHome(dbs, ch) && Opened(base, x) && Grows(x, y)
    requires forall cell | cell in y.clock :: Kept(x, y, cell) || MadeBy(x, y, ch, cell)
    ensures TxHome(dbs, base, y)
  {
    hide EntryHome, Kept, MadeBy, Grows, Covered, Opened, ChangeHome;
    forall cell | cell in y.clock
      ensures EntryHome(dbs, y, cell)
      ensures (cell in x.clock && y.clock[cell] == x.clock[cell]) ||
              (y.clock[cell].site == Some(ch.site) && ch.site in dbs &&
               (cell in base.clock ==> IsColumn(cell) && Covered(dbs[ch.site], base, cell)))
    {
      if Kept(x, y, cell) {
        KeptEntry(x, y, cell);
        EntryHomeKept(dbs, x, y, cell);
      } else {
        MadeHome(dbs, base, x, y, ch, cell);
        MadeSite(dbs, x, y, ch, cell);
      }
    }
  }

  lemma MadeSite(dbs: Dbs, x: Db, y: Db, ch: Change, cell: Cell)
    requires cell in y.clock && MadeBy(x, y, ch, cell) && ChangeHome(dbs, ch)
    ensures ch.site in dbs && y.clock[cell].site == Some(ch.site)
  {
  }

  lemma SomeAbsorbedStays(x: Db, y: Db, changes: seq<Change>, n: nat)
    requires SomeAbsorbed(x, changes, n) && Grows(x, y)
    ensures SomeAbsorbed(y, changes, n)
  {
    hide Absorbed, Advances;
    forall k | 0 <= k < n ensures Absorbed(y, changes[k]) { AbsorbedStays(x, y, 0, changes[k]); }
  }

  /** A transaction that goes on keeps what all the others know. */
  lemma TxGoesOn(cfg: Config, net: Net, s: Site, tx: Tx)
    requires Inv(cfg, net) && s in net.dbs && Opened(net.dbs[s], tx.db) && TxHome(net.dbs, net.dbs[s], tx.db)
    requires TxPush(s, tx, net.pushes)
    requires Grows(Settled(net.dbs, net.txs)[s], if tx.recorded then tx.db else net.dbs[s])
    ensures Inv(cfg, WithTx(net, s, tx))
  {
    hide Basic, TxHome, TxPush, CursorsKnown, RequestsKnown, PushesBear, EntriesHome, PushesHome;
    hide Opened, Settled, Grows;
    hide AllSound, AllGrow, AllFollow;
    var settled := Settled(net.dbs, net.txs);
    BasicTx(net.dbs, net.txs, s, tx);
    SettledTx(net.dbs, net.txs, s, tx);
    BasicSound(net.dbs, net.txs);
    AllFollowSelf(net.dbs);
    SettledHas(net.dbs, net.txs, s);
    OneGrows(settled, s, if tx.recorded then tx.db else net.dbs[s]);
    RequestsStay(cfg, settled, Settled(net.dbs, net.txs[s := tx]), net.dbs, net.dbs, net.requests);
    PushesStay(cfg, settled, Settled(net.dbs, net.txs[s := tx]), net.dbs, net.dbs, net.pushes);
  }

  lemma BasicSound(dbs: Dbs, txs: Txs)
    requires Basic(dbs, txs)
    ensures AllSound(dbs)
  {
  }

  lemma SettledHas(dbs: Dbs, txs: Txs, s: Site)
    ensures s in Settled(dbs, txs) <==> s in dbs
  {
  }

  /** What the invariant says about one open transaction. */
  lemma InvTx(cfg: Config, net: Net, s: Site)
    requires Inv(cfg, net) && s in net.txs
    ensures s in net.dbs && Sound(net.dbs[s]) && Opened(net.dbs[s], net.txs[s].db)
    ensures TxHome(net.dbs, net.dbs[s], net.txs[s].db) && TxPush(s, net.txs[s], net.pushes)
  {
    hide TxHome, TxPush, Opened, Sound, CursorsKnown, RequestsKnown, PushesBear, EntriesHome, PushesHome;
  }

  lemma InvSound(cfg: Config, net: Net, s: Site)
    requires Inv(cfg, net) && s in net.dbs
    ensures Sound(net.dbs[s]) && Basic(net.dbs, net.txs)
  {
    hide TxsHome, TxsPush, Opened, Sound, CursorsKnown, RequestsKnown, PushesBear, EntriesHome, PushesHome;
  }

  lemma CommittedHome(cfg: Config, net: Net, s: Site)
    requires Inv(cfg, net) && s in net.dbs
    ensures TxHome(net.dbs, net.dbs[s], net.dbs[s])
  {
    hide TxsHome, TxsPush, Basic, EntryHome, CursorsKnown, RequestsKnown, PushesBear, PushesHome;
  }

  lemma BeginKeeps(cfg: Config, net: Net, s: Site, push: Option<Push>)
    requires Inv(cfg, net) && Enabled(cfg, net, Begin(s, push))
    ensures Inv(cfg, Do(cfg, net, Begin(s, push)))
  {
    hide Inv, Sound, Opened, TxHome, Settled, Grows;
    InvSound(cfg, net, s);
    OpenedSelf(net.dbs[s]);
    CommittedHome(cfg, net, s);
    SettledSame(net.dbs, net.txs, s);
    GrowsSelf(net.dbs[s]);
    TxGoesOn(cfg, net, s, Tx(net.dbs[s], push, 0, false));
  }

  /** The settled databases when the database of a transaction grows. */
  lemma GoneOn(net: Net, s: Site, tx: Tx)
    requires s in net.dbs && s in net.txs && tx.recorded == net.txs[s].recorded && Grows(net.txs[s].db, tx.db)
    ensures Grows(Settled(net.dbs, net.txs)[s], if tx.recorded then tx.db else net.dbs[s])
  {
    hide Grows;
    GrowsSelf(net.dbs[s]);
  }

  lemma StatementKeeps(cfg: Config, net: Net, s: Site, w: Write)
    requires GoodConfig(cfg) && Inv(cfg, net) && Enabled(cfg, net, Statement(s, w))
    ensures Inv(cfg, Do(cfg, net, Statement(s, w)))
  {
    hide Inv, Sound, Opened, TxHome, Settled, Grows, Permitted, WriteOne, GoodConfig, OwnEntries, SomeAbsorbed;
    InvTx(cfg, net, s);
    var tx := net.txs[s];
    StatementResult(cfg, net.dbs[s], tx.db, w);
    var db := WriteOne(cfg, tx.db, w, Next(net, s));
    StatementHome(net.dbs, net.dbs[s], tx.db, db);
    if tx.push.Some? { SomeAbsorbedStays(tx.db, db, tx.push.value.changes, tx.merged); }
    GoneOn(net, s, tx.(db := db));
    TxGoesOn(cfg, net, s, tx.(db := db));
  }

  lemma PushChangeHome(cfg: Config, net: Net, p: Push, k: nat)
    requires Inv(cfg, net) && p in net.pushes && k < |p.changes|
    ensures ChangeHome(net.dbs, p.changes[k])
  {
    hide TxsHome, TxsPush, Basic, ChangeHome, CursorsKnown, RequestsKnown, PushesBear, EntriesHome;
    assert ChangesHome(net.dbs, p.changes) && p.changes[k] in p.changes;
  }

  lemma MergeKeeps(cfg: Config, net: Net, s: Site)
    requires Inv(cfg, net) && Enabled(cfg, net, MergeNext(s))
    ensures Inv(cfg, Do(cfg, net, MergeNext(s)))
  {
    hide Inv, Sound, Opened, TxHome, Settled, Grows, Merge, Kept, MadeBy, ChangeHome, Absorbed;
    InvTx(cfg, net, s);
    var tx := net.txs[s];
    var changes := tx.push.value.changes;
    PushChangeHome(cfg, net, tx.push.value, tx.merged);
    var db := MergeResult(net.dbs[s], tx.db, changes[tx.merged]);
    MergeHome(net.dbs, net.dbs[s], tx.db, db, changes[tx.merged]);
    SomeAbsorbedStays(tx.db, db, changes, tx.merged);
    GoneOn(net, s, tx.(db := db, merged := tx.merged + 1));
    TxGoesOn(cfg, net, s, tx.(db := db, merged := tx.merged + 1));
  }

  lemma RecordKeeps(cfg: Config, net: Net, s: Site)
    requires Inv(cfg, net) && Enabled(cfg, net, Record(s))
    ensures Inv(cfg, Do(cfg, net, Record(s)))
  {
    hide Inv, Sound, Opened, TxHome, Settled, Grows, SomeAbsorbed;
    InvTx(cfg, net, s);
    SettledSame(net.dbs, net.txs, s);
    OpenedFollows(net.dbs[s], net.txs[s].db);
    TxGoesOn(cfg, net, s, net.txs[s].(recorded := true));
  }

  lemma AbortKeeps(cfg: Config, net: Net, s: Site)
    requires Inv(cfg, net) && Enabled(cfg, net, Abort(s))
    ensures Inv(cfg, Do(cfg, net, Abort(s)))
  {
    hide Basic, TxHome, TxPush, CursorsKnown, RequestsKnown, PushesBear, EntriesHome, PushesHome, Settled;
    BasicLess(net.dbs, net.txs, s);
    SettledAbort(net.dbs, net.txs, s);
  }

  // ---- Committing -------------------------------------------------------------------------

  lemma AnsweredCovered(j: Db, changes: seq<Change>, i: Db, cell: Cell)
    requires cell in i.clock && Answered(changes, i, cell) && forall ch | ch in changes :: Absorbed(j, ch)
    ensures Covered(j, i, cell)
  {
    hide Answers, Absorbed, Covered;
    var ch :| ch in changes && Answers(ch, i, cell);
    AnswerCovers(j, ch, i, cell);
  }

  /** Whoever took in all of a push that bears everything up to its largest version knows that. */
  lemma BornKnown(cfg: Config, site: Site, j: Db, i: Db, changes: seq<Change>)
    requires Bears(cfg, site, j, i, changes) && SomeAbsorbed(j, changes, |changes|)
    ensures Known(cfg, site, j, i, MaxVersion(changes))
  {
    hide Covered, Withheld, Answered, Absorbed;
    assert forall ch | ch in changes :: Absorbed(j, ch);
    forall cell | cell in i.clock && i.clock[cell].dbVersion <= MaxVersion(changes)
      ensures Covered(j, i, cell) || Withheld(cfg, site, i, cell)
    {
      if Answered(changes, i, cell) { AnsweredCovered(j, changes, i, cell); }
    }
  }

  lemma PushBorn(cfg: Config, net: Net, p: Push)
    requires Inv(cfg, net) && p in net.pushes
    ensures p.source in net.dbs && p.target in Settled(net.dbs, net.txs)
    ensures Bears(cfg, p.target, Settled(net.dbs, net.txs)[p.target], net.dbs[p.source], p.changes)
  {
    hide Basic, TxsHome, TxsPush, Bears, CursorsKnown, RequestsKnown, EntriesHome, PushesHome, Settled;
  }

  /** A recorded cursor is worth its version. */
  lemma RecordedKnown(cfg: Config, net: Net, s: Site)
    requires Inv(cfg, net) && s in net.txs && net.txs[s].recorded
    ensures s in net.dbs && AllMerged(net.txs[s]) && net.txs[s].push.value.source in net.dbs
    ensures var p := net.txs[s].push.value;
      Known(cfg, s, net.txs[s].db, net.dbs[p.source], MaxVersion(p.changes))
  {
    hide Inv, Bears, Known, Opened, Sound, TxHome, SomeAbsorbed;
    InvTx(cfg, net, s);
    var tx := net.txs[s];
    PushBorn(cfg, net, tx.push.value);
    BornKnown(cfg, s, tx.db, net.dbs[tx.push.value.source], tx.push.value.changes);
  }

  lemma EntriesHomeEnd(dbs: Dbs, s: Site, db: Db)
    requires s in dbs && EntriesHome(dbs) && TxHome(dbs, dbs[s], db) && AllGrow(dbs, dbs[s := db])
    ensures EntriesHome(dbs[s := db])
  {
    hide EntryHome, AllGrow, Superseded;
    var after := dbs[s := db];
    forall i, cell | i in after && cell in after[i].clock ensures EntryHome(after, after[i], cell) {
      EntryHomeStays(dbs, after, after[i], cell);
    }
  }

  lemma TxsHomeEnd(dbs: Dbs, txs: Txs, s: Site, db: Db)
    requires TxsHome(dbs, txs) && AllGrow(dbs, dbs[s := db])
    ensures TxsHome(dbs[s := db], txs - {s})
  {
    hide TxHome, AllGrow;
    forall t | t in txs && t != s ensures TxHome(dbs[s := db], dbs[t], txs[t].db) {
      TxHomeStays(dbs, dbs[s := db], dbs[t], txs[t].db);
    }
  }

  /** The network after a commit, but for the cursor. */
  function Moved(net: Net, s: Site): Net
    requires s in net.txs
  {
    net.(dbs := net.dbs[s := net.txs[s].db], txs := net.txs - {s})
  }

  lemma MoveKeeps(cfg: Config, net: Net, s: Site)
    requires Inv(cfg, net) && s in net.txs
    ensures Inv(cfg, Moved(net, s)) && s in net.dbs && AllFollow(net.dbs, Moved(net, s).dbs)
  {
    hide Basic, TxHome, TxPush, CursorsKnown, RequestsKnown, PushesBear, EntriesHome, PushesHome, Settled;
    hide AllGrow, AllFollow, Opened, Sound;
    InvTx(cfg, net, s);
    var db, after := net.txs[s].db, Moved(net, s);
    BasicSound(net.dbs, net.txs);
    OpenedFollows(net.dbs[s], db);
    OneFollows(net.dbs, s, db);
    BasicEnd(net.dbs, net.txs, s);
    TxsHomeEnd(net.dbs, net.txs, s, db);
    CursorsStay(cfg, net.dbs, after.dbs, net.cursors);
    SettledMoves(net, s);
    RequestsStay(cfg, Settled(net.dbs, net.txs), Settled(after.dbs, after.txs), net.dbs, after.dbs, net.requests);
    PushesStay(cfg, Settled(net.dbs, net.txs), Settled(after.dbs, after.txs), net.dbs, after.dbs, net.pushes);
    EntriesHomeEnd(net.dbs, s, db);
    PushesHomeStay(net.dbs, after.dbs, net.pushes);
  }

  lemma SettledMoves(net: Net, s: Site)
    requires s in net.dbs && s in net.txs && Sound(net.dbs[s]) && Opened(net.dbs[s], net.txs[s].db)
    ensures AllGrow(Settled(net.dbs, net.txs), Settled(Moved(net, s).dbs, Moved(net, s).txs))
  {
    hide Sound, Opened, Grows, Settled, AllGrow;
    SettledEnd(net.dbs, net.txs, s);
    SettledSame(net.dbs, net.txs, s);
    SettledHas(net.dbs, net.txs, s);
    OpenedFollows(net.dbs[s], net.txs[s].db);
    GrowsSelf(net.txs[s].db);
    OneGrows(Settled(net.dbs, net.txs), s, net.txs[s].db);
  }

  lemma CursorAdded(cfg: Config, net: Net, j: Site, i: Site, upto: int)
    requires Inv(cfg, net) && j in net.dbs && i in net.dbs && Known(cfg, j, net.dbs[j], net.dbs[i], upto)
    ensures Inv(cfg, net.(cursors := net.cursors[(j, i) := upto]))
  {
    hide Basic, TxsHome, TxsPush, Known, RequestsKnown, PushesBear, EntriesHome, PushesHome, Settled;
  }

  lemma EndKeeps(cfg: Config, net: Net, s: Site)
    requires Inv(cfg, net) && Enabled(cfg, net, End(s))
    ensures Inv(cfg, Do(cfg, net, End(s)))
  {
    hide Inv, Known, Follows, Grows, MaxVersion, AllMerged;
    MoveKeeps(cfg, net, s);
    var tx, after := net.txs[s], Moved(net, s);
    if tx.push.Some? {
      var i, upto := tx.push.value.source, MaxVersion(tx.push.value.changes);
      RecordedKnown(cfg, net, s);
      GrowsSelf(tx.db);
      KnownStays(cfg, s, tx.db, tx.db, net.dbs[i], after.dbs[i], upto);
      CursorAdded(cfg, after, s, i, upto);
      assert after.(cursors := after.cursors[(s, i) := upto]) == Do(cfg, net, End(s));
    } else {
      assert after == Do(cfg, net, End(s));
    }
  }

  // ---- Asking -----------------------------------------------------------------------------

  lemma NothingKnown(cfg: Config, site: Site, j: Db, i: Db)
    requires Sound(i)
    ensures Known(cfg, site, j, i, 0)
  {
    FollowsSelf(i);
    hide Covered, Follows;
  }

  lemma CursorKnown(cfg: Config, net: Net, j: Site, i: Site)
    requires Inv(cfg, net) && j in net.dbs && i in net.dbs
    ensures Known(cfg, j, net.dbs[j], net.dbs[i], Cursor(net, j, i))
  {
    hide Basic, TxsHome, TxsPush, Known, RequestsKnown, PushesBear, EntriesHome, PushesHome, Settled;
    InvSound(cfg, net, i);
    NothingKnown(cfg, j, net.dbs[j], net.dbs[i]);
  }

  /** What is committed counts for what is settled. */
  lemma SettledKnown(cfg: Config, net: Net, j: Site, i: Site, upto: int)
    requires Inv(cfg, net) && j in net.dbs && i in net.dbs && Known(cfg, j, net.dbs[j], net.dbs[i], upto)
    ensures Known(cfg, j, Settled(net.dbs, net.txs)[j], net.dbs[i], upto)
  {
    hide Inv, Known, Grows, Follows, Settled;
    InvSound(cfg, net, i);
    SettledGrows(net.dbs, net.txs);
    FollowsSelf(net.dbs[i]);
    KnownStays(cfg, j, net.dbs[j], Settled(net.dbs, net.txs)[j], net.dbs[i], net.dbs[i], upto);
  }

  lemma RequestAdded(cfg: Config, net: Net, r: Request)
    requires Inv(cfg, net) && r.source in net.dbs && r.target in net.dbs
    requires Known(cfg, r.target, Settled(net.dbs, net.txs)[r.target], net.dbs[r.source], r.since)
    ensures Inv(cfg, net.(requests := net.requests + {r}))
  {
    SettledHas(net.dbs, net.txs, r.target);
    hide Basic, TxsHome, TxsPush, Known, CursorsKnown, PushesBear, EntriesHome, PushesHome, Settled;
  }

  /** Also a cursor read from an open transaction is worth its version. */
  lemma VisibleCursorKnown(cfg: Config, net: Net, j: Site, i: Site)
    requires Inv(cfg, net) && j in net.dbs && i in net.dbs
    ensures Known(cfg, j, Settled(net.dbs, net.txs)[j], net.dbs[i], VisibleCursor(net, j, i))
  {
    hide Inv, Known, MaxVersion, Settled, Cursor;
    CursorKnown(cfg, net, j, i);
    SettledKnown(cfg, net, j, i, Cursor(net, j, i));
    SettledSame(net.dbs, net.txs, j);
    if j in net.txs && net.txs[j].recorded { RecordedKnown(cfg, net, j); }
  }

  lemma PokeKeeps(cfg: Config, net: Net, s: Site, peer: Site, version: int)
    requires Inv(cfg, net) && Enabled(cfg, net, Poke(s, peer, version))
    ensures Inv(cfg, Do(cfg, net, Poke(s, peer, version)))
  {
    hide Inv, Known, VisibleCursor, Settled;
    VisibleCursorKnown(cfg, net, s, peer);
    RequestAdded(cfg, net, Request(peer, s, VisibleCursor(net, s, peer)));
  }

  // ---- Serving a request ------------------------------------------------------------------

  /** A read that returns nothing of an open transaction: nothing above the last commit. */
  ghost predicate Clean(net: Net, step: Step) {
    step.Serve? && step.request.source in net.dbs ==>
      MaxVersion(step.changes) <= DbVersion(net.dbs[step.request.source].clock)
  }

  /** What a read of an open transaction returns for an entry that was not touched answers for the
      committed entry. */
  lemma ReadAnswersBase(base: Db, db: Db, self: Site, cell: Cell)
    requires Opened(base, db) && cell in base.clock && cell in db.clock && db.clock[cell] == base.clock[cell]
    ensures Answers(ReadEntry(db, self, cell), base, cell)
  {
    hide Le, Defaults;
    LeSelf(StampOf(db, cell));
  }

  lemma LeSelf(s: Stamp)
    ensures Le(s, s)
  {
  }

  lemma SelectedAnswered(base: Db, db: Db, self: Site, since: int, who: Option<Site>, changes: seq<Change>, cell: Cell)
    requires Opened(base, db) && (set ch | ch in changes) == ReadSet(db, self, since, who)
    requires cell in base.clock && cell in db.clock && db.clock[cell] == base.clock[cell]
    requires Selected(db, cell, since, who)
    ensures Answered(changes, base, cell)
  {
    hide Opened, Answers, ReadEntry;
    ReadAnswersBase(base, db, self, cell);
    assert ReadEntry(db, self, cell) in ReadSet(db, self, since, who);
    assert ReadEntry(db, self, cell) in changes;
  }

  /** Nothing selected is above the largest version read. */
  lemma SelectedBelow(db: Db, self: Site, since: int, who: Option<Site>, changes: seq<Change>, cell: Cell)
    requires (set ch | ch in changes) == ReadSet(db, self, since, who) && Selected(db, cell, since, who)
    ensures db.clock[cell].dbVersion <= MaxVersion(changes)
  {
    assert ReadEntry(db, self, cell) in ReadSet(db, self, since, who);
    assert ReadEntry(db, self, cell) in changes;
  }

  /** What a read that leaves out the requestor's own does not return, the requestor has, or it is a
      tombstone that carries its site. */
  lemma UnselectedKnown(cfg: Config, dbs: Dbs, i: Db, target: Site, since: int, cell: Cell)
    requires target in dbs && cell in i.clock && EntryHome(dbs, i, cell)
    requires i.clock[cell].dbVersion > since && !Selected(i, cell, since, Requestor(cfg, target))
    ensures Covered(dbs[target], i, cell) || Withheld(cfg, target, i, cell)
  {
    hide HasRow, Covered;
  }

  /** The entries a transaction changed are out of reach of a clean read, or their site has what was
      there. */
  lemma ChangedKnown(cfg: Config, dbs: Dbs, base: Db, db: Db, self: Site, target: Site, since: int,
    changes: seq<Change>, cell: Cell)
    requires target in dbs && Opened(base, db) && Superseded(dbs, base, db) && since <= DbVersion(base.clock)
    requires (set ch | ch in changes) == ReadSet(db, self, since, Requestor(cfg, target))
    requires MaxVersion(changes) <= DbVersion(base.clock)
    requires cell in base.clock && cell in db.clock && db.clock[cell] != base.clock[cell]
    ensures Covered(dbs[target], base, cell)
  {
    hide Covered, ReadSet, Sound, MaxVersion;
    assert db.clock[cell].dbVersion > DbVersion(base.clock);
    if Selected(db, cell, since, Requestor(cfg, target)) {
      SelectedBelow(db, self, since, Requestor(cfg, target), changes, cell);
      assert false;
    }
  }

  lemma OpenedHas(base: Db, db: Db, cell: Cell)
    requires Opened(base, db) && cell in base.clock
    ensures cell in db.clock
  {
  }

  lemma ReadBears(cfg: Config, dbs: Dbs, j: Db, db: Db, source: Site, target: Site, since: int, changes: seq<Change>)
    requires source in dbs && target in dbs && Opened(dbs[source], db) && TxHome(dbs, dbs[source], dbs[source])
    requires TxHome(dbs, dbs[source], db) && Grows(dbs[target], j) && Known(cfg, target, j, dbs[source], since)
    requires (set ch | ch in changes) == ReadSet(db, source, since, Requestor(cfg, target))
    requires MaxVersion(changes) <= DbVersion(dbs[source].clock)
    ensures Bears(cfg, target, j, dbs[source], changes)
  {
    hide Opened, Covered, Withheld, Answered, EntryHome, Superseded, ReadSet, Requestor, Selected, Grows;
    var i, who := dbs[source], Requestor(cfg, target);
    forall cell | cell in i.clock && i.clock[cell].dbVersion <= MaxVersion(changes)
      ensures Covered(j, i, cell) || Withheld(cfg, target, i, cell) || Answered(changes, i, cell)
    {
      OpenedHas(i, db, cell);
      if i.clock[cell].dbVersion > since {
        if db.clock[cell] != i.clock[cell] {
          ChangedKnown(cfg, dbs, i, db, source, target, since, changes, cell);
        } else if Selected(db, cell, since, who) {
          SelectedAnswered(i, db, source, since, who, changes, cell);
        } else {
          SelectedSame(db, i, cell, since, who);
          UnselectedKnown(cfg, dbs, i, target, since, cell);
        }
        if Covered(dbs[target], i, cell) { CoveredGrows(dbs[target], j, i, cell); }
      }
    }
  }

  lemma SelectedSame(x: Db, y: Db, cell: Cell, since: int, who: Option<Site>)
    requires cell in x.clock && cell in y.clock && x.clock[cell] == y.clock[cell]
    ensures Selected(x, cell, since, who) <==> Selected(y, cell, since, who)
  {
  }

  lemma RequestKnown(cfg: Config, net: Net, r: Request)
    requires Inv(cfg, net) && r in net.requests
    ensures r.source in net.dbs && r.target in net.dbs
    ensures Known(cfg, r.target, Settled(net.dbs, net.txs)[r.target], net.dbs[r.source], r.since)
  {
    hide Basic, TxsHome, TxsPush, Known, CursorsKnown, PushesBear, EntriesHome, PushesHome;
  }

  /** What a connection reads, with the uncommitted writes, is an open database. */
  lemma VisibleOpened(cfg: Config, net: Net, s: Site)
    requires Inv(cfg, net) && s in net.dbs
    ensures Opened(net.dbs[s], Visible(net, s)) && TxHome(net.dbs, net.dbs[s], Visible(net, s))
  {
    hide Inv, Opened, TxHome, Sound, TxPush;
    InvSound(cfg, net, s);
    OpenedSelf(net.dbs[s]);
    CommittedHome(cfg, net, s);
    if s in net.txs { InvTx(cfg, net, s); }
  }

  /** Answering a request with everything selected bears what the requestor lacks and is not kept
      back from it. */
  lemma ServeBears(cfg: Config, net: Net, r: Request, changes: seq<Change>)
    requires Inv(cfg, net) && Enabled(cfg, net, Serve(r, changes)) && Clean(net, Serve(r, changes))
    ensures r.target in net.dbs
    ensures Bears(cfg, r.target, Settled(net.dbs, net.txs)[r.target], net.dbs[r.source], changes)
  {
    hide Inv, Known, Bears, Opened, TxHome, Sound, ReadSet, Settled, MaxVersion, Visible, Grows;
    RequestKnown(cfg, net, r);
    InvSound(cfg, net, r.source);
    VisibleOpened(cfg, net, r.source);
    CommittedHome(cfg, net, r.source);
    SettledGrows(net.dbs, net.txs);
    var db, j := Visible(net, r.source), Settled(net.dbs, net.txs)[r.target];
    ReadBears(cfg, net.dbs, j, db, r.source, r.target, r.since, changes);
  }

  /** What a clean read returns is at home. */
  lemma ReadHome(dbs: Dbs, db: Db, self: Site, cell: Cell)
    requires self in dbs && Sound(dbs[self]) && Opened(dbs[self], db) && cell in db.clock && EntryHome(dbs, db, cell)
    requires db.clock[cell].dbVersion <= DbVersion(dbs[self].clock)
    ensures ChangeHome(dbs, ReadEntry(db, self, cell))
  {
    hide Defaults, RowsPresent, Le;
    assert Cell(cell.row, cell.cid) in dbs[self].clock;
    assert HasRow(dbs[self], cell.row);
    hide HasRow;
    LeSelf(StampOf(db, cell));
  }

  lemma ServeHome(cfg: Config, net: Net, r: Request, changes: seq<Change>)
    requires Inv(cfg, net) && Enabled(cfg, net, Serve(r, changes)) && Clean(net, Serve(r, changes))
    ensures ChangesHome(net.dbs, changes)
  {
    hide Inv, Opened, Sound, ReadEntry, ChangeHome, EntryHome, Selected, Visible, MaxVersion, Superseded;
    InvSound(cfg, net, r.source);
    VisibleOpened(cfg, net, r.source);
    var db, who := Visible(net, r.source), Requestor(cfg, r.target);
    forall ch | ch in changes ensures ChangeHome(net.dbs, ch) {
      assert ch in ReadSet(db, r.source, r.since, who);
      var cell :| cell in db.clock && Selected(db, cell, r.since, who) && ReadEntry(db, r.source, cell) == ch;
      SelectedBelow(db, r.source, r.since, who, changes, cell);
      ReadHome(net.dbs, db, r.source, cell);
    }
  }

  lemma PushAdded(cfg: Config, net: Net, p: Push)
    requires Inv(cfg, net) && p.source in net.dbs && p.target in net.dbs && ChangesHome(net.dbs, p.changes)
    requires Bears(cfg, p.target, Settled(net.dbs, net.txs)[p.target], net.dbs[p.source], p.changes)
    ensures Inv(cfg, net.(pushes := net.pushes + {p}))
  {
    SettledHas(net.dbs, net.txs, p.target);
    hide Basic, TxsHome, Bears, CursorsKnown, RequestsKnown, EntriesHome, ChangesHome, Settled;
  }

  lemma ServeKeeps(cfg: Config, net: Net, r: Request, changes: seq<Change>)
    requires Inv(cfg, net) && Enabled(cfg, net, Serve(r, changes)) && Clean(net, Serve(r, changes))
    ensures Inv(cfg, Do(cfg, net, Serve(r, changes)))
  {
    hide Inv, Bears, ChangesHome, ReadSet, Settled, Clean, Visible;
    ServeBears(cfg, net, r, changes);
    ServeHome(cfg, net, r, changes);
    PushAdded(cfg, net, Push(r.source, r.target, changes));
  }

  lemma StepKeeps(cfg: Config, net: Net, step: Step)
    requires GoodConfig(cfg) && Inv(cfg, net) && Enabled(cfg, net, step) && Clean(net, step)
    ensures Inv(cfg, Do(cfg, net, step))
  {
    hide Inv, Do, Enabled, GoodConfig, Clean;
    match step
    case Begin(s, push) => BeginKeeps(cfg, net, s, push);
    case Statement(s, w) => StatementKeeps(cfg, net, s, w);
    case MergeNext(s) => MergeKeeps(cfg, net, s);
    case Record(s) => RecordKeeps(cfg, net, s);
    case End(s) => EndKeeps(cfg, net, s);
    case Abort(s) => AbortKeeps(cfg, net, s);
    case Poke(s, peer, version) => PokeKeeps(cfg, net, s, peer, version);
    case Serve(r, changes) => ServeKeeps(cfg, net, r, changes);
  }

  // ---- Runs -------------------------------------------------------------------------------

  /** A run on which no read returns what an open transaction wrote. */
  ghost predicate CleanRun(cfg: Config, net: Net, steps: seq<Step>) {
    LegalRun(cfg, net, steps) &&
    (steps == [] ||
     (var n := |steps| - 1; CleanRun(cfg, net, steps[..n]) && Clean(Run(cfg, net, steps[..n]), steps[n])))
  }

  lemma CleanIsLegal(cfg: Config, net: Net, steps: seq<Step>)
    requires CleanRun(cfg, net, steps)
    ensures LegalRun(cfg, net, steps)
  {
  }

  lemma StartInv(cfg: Config, net: Net)
    requires Start(net)
    ensures Inv(cfg, net)
  {
    assert forall s | s in net.dbs :: Sound(net.dbs[s]);
  }

  lemma {:induction false} RunKeeps(cfg: Config, net: Net, steps: seq<Step>)
    requires GoodConfig(cfg) && Start(net) && CleanRun(cfg, net, steps)
    ensures Inv(cfg, Run(cfg, net, steps))
  {
    hide Inv, Do, Enabled, Start, GoodConfig, Clean;
    if steps == [] {
      StartInv(cfg, net);
    } else {
      var n := |steps| - 1;
      RunKeeps(cfg, net, steps[..n]);
      StepKeeps(cfg, Run(cfg, net, steps[..n]), steps[n]);
    }
  }

  /** Cursor safety: after any clean run, whatever was lost, repeated, reordered or rolled back,
      every replica has all that happened at another one up to its cursor for it, deletes included,
      but for tombstones that carry its own site and that a filtered read leaves out. */
  lemma CursorsSafe(cfg: Config, net: Net, steps: seq<Step>, j: Site, i: Site, cell: Cell)
    requires GoodConfig(cfg) && Start(net) && CleanRun(cfg, net, steps)
    requires var end := Run(cfg, net, steps);
      j in end.dbs && i in end.dbs && cell in end.dbs[i].clock && end.dbs[i].clock[cell].dbVersion <= Cursor(end, j, i)
    ensures var end := Run(cfg, net, steps);
      Covered(end.dbs[j], end.dbs[i], cell) ||
      (cfg.filtered && cell.cid == DELETE_CID && end.dbs[i].clock[cell].site == Some(j))
  {
    hide Inv, Run, LegalRun, Start, GoodConfig, Covered;
    RunKeeps(cfg, net, steps);
    CursorKnown(cfg, Run(cfg, net, steps), j, i);
  }

  // ---- Convergence ------------------------------------------------------------------------

  /** j's cursor for i covers all of i's entries, other than those that a filtered read leaves
      out because they are j's own. */
  ghost predicate CaughtUp(cfg: Config, net: Net, j: Site, i: Site)
    requires i in net.dbs
  {
    var clock := net.dbs[i].clock;
    forall cell | cell in clock ::
      clock[cell].dbVersion <= Cursor(net, j, i) || (cfg.filtered && clock[cell].site == Some(j))
  }

  /** i deleted a row, its tombstone carries j's site, so that a filtered read keeps it back, and j
      does not know. */
  predicate Hides(cfg: Config, net: Net, i: Site, j: Site, row: RowId)
    requires i in net.dbs && j in net.dbs
  {
    var cell := Cell(row, DELETE_CID);
    cell in net.dbs[i].clock && Withheld(cfg, j, net.dbs[i], cell) && !Tomb(net.dbs[j], row)
  }

  /** j has everything of a row of i. */
  ghost predicate RowCovered(j: Db, i: Db, row: RowId) {
    forall cid | Cell(row, cid) in i.clock :: Covered(j, i, Cell(row, cid))
  }

  /** Two databases show the same of a row: both have it or neither, with the same values. */
  ghost predicate ShowSame(a: Db, b: Db, row: RowId) {
    (row in a.rows <==> row in b.rows) && forall cid :: Column(a, row, cid) == Column(b, row, cid)
  }

  lemma CaughtUpCell(cfg: Config, net: Net, j: Site, i: Site, cell: Cell)
    requires Inv(cfg, net) && j in net.dbs && i in net.dbs && CaughtUp(cfg, net, j, i) && cell in net.dbs[i].clock
    ensures Covered(net.dbs[j], net.dbs[i], cell) || Withheld(cfg, j, net.dbs[i], cell)
  {
    hide Covered, Cursor, HasRow, AllSound, CursorsKnown, RequestsKnown, PushesBear, PushesHome;
    CursorKnown(cfg, net, j, i);
    assert EntryHome(net.dbs, net.dbs[i], cell);
  }

  lemma CaughtUpRow(cfg: Config, net: Net, j: Site, i: Site, row: RowId)
    requires Inv(cfg, net) && j in net.dbs && i in net.dbs && CaughtUp(cfg, net, j, i) && !Hides(cfg, net, i, j, row)
    ensures RowCovered(net.dbs[j], net.dbs[i], row)
  {
    hide Inv, CaughtUp;
    forall cid | Cell(row, cid) in net.dbs[i].clock ensures Covered(net.dbs[j], net.dbs[i], Cell(row, cid)) {
      CaughtUpCell(cfg, net, j, i, Cell(row, cid));
    }
  }

  lemma MutualPresence(a: Db, b: Db, row: RowId)
    requires Sound(a) && Sound(b) && row in a.rows && RowCovered(a, b, row) && RowCovered(b, a, row)
    ensures row in b.rows
  {
    hide Defaults, Le;
    var cid := RowHasEntry(a, row);
    assert Covered(b, a, Cell(row, cid));
  }

  lemma MutualColumn(a: Db, b: Db, row: RowId, cid: Cid)
    requires Sound(a) && Sound(b) && row in a.rows && row in b.rows && RowCovered(a, b, row) && RowCovered(b, a, row)
    ensures Column(a, row, cid) == Column(b, row, cid)
  {
    hide Le, RowsPresent;
    var cell := Cell(row, cid);
    assert cell in a.clock ==> Covered(b, a, cell);
    assert cell in b.clock ==> Covered(a, b, cell);
    if cell in a.clock { LeAntisymmetric(StampOf(a, cell), StampOf(b, cell)); }
  }

  /** Two databases that have everything of a row of each other show the same of it. */
  lemma MutualRow(a: Db, b: Db, row: RowId)
    requires Sound(a) && Sound(b) && RowCovered(a, b, row) && RowCovered(b, a, row)
    ensures ShowSame(a, b, row)
  {
    hide Sound, RowCovered;
    if row in a.rows { MutualPresence(a, b, row); }
    if row in b.rows { MutualPresence(b, a, row); }
    forall cid ensures Column(a, row, cid) == Column(b, row, cid) {
      if row in a.rows { MutualColumn(a, b, row, cid); }
    }
  }

  /** A hidden delete shows: the site whose id the tombstone carries still has the row. */
  lemma HiddenDiffers(cfg: Config, net: Net, i: Site, j: Site, row: RowId)
    requires Inv(cfg, net) && i in net.dbs && j in net.dbs && Hides(cfg, net, i, j, row)
    ensures row !in net.dbs[i].rows && row in net.dbs[j].rows
  {
    hide Covered, CursorsKnown, RequestsKnown, PushesBear, PushesHome;
    InvSound(cfg, net, i);
    InvSound(cfg, net, j);
    assert EntryHome(net.dbs, net.dbs[i], Cell(row, DELETE_CID));
    RowStands(net.dbs[j], row);
  }

  lemma RowStands(db: Db, row: RowId)
    requires Sound(db) && HasRow(db, row) && !Tomb(db, row)
    ensures row in db.rows
  {
    hide Defaults, RowEntries;
    var cid :| Cell(row, cid) in db.clock;
  }

  lemma CaughtUpAgree(cfg: Config, net: Net, i: Site, j: Site, row: RowId)
    requires Inv(cfg, net) && i in net.dbs && j in net.dbs && CaughtUp(cfg, net, i, j) && CaughtUp(cfg, net, j, i)
    ensures ShowSame(net.dbs[i], net.dbs[j], row) <==> !Hides(cfg, net, i, j, row) && !Hides(cfg, net, j, i, row)
  {
    hide Inv, Sound, CaughtUp, Hides, RowCovered, Column;
    InvSound(cfg, net, i);
    InvSound(cfg, net, j);
    if Hides(cfg, net, i, j, row) {
      HiddenDiffers(cfg, net, i, j, row);
    } else if Hides(cfg, net, j, i, row) {
      HiddenDiffers(cfg, net, j, i, row);
    } else {
      CaughtUpRow(cfg, net, j, i, row);
      CaughtUpRow(cfg, net, i, j, row);
      MutualRow(net.dbs[i], net.dbs[j], row);
    }
  }

  /** Convergence: after any clean run, two replicas whose cursors cover each other show the same of a row
      exactly when neither hides its delete from the other. Without the site filter nothing is
      hidden, and so is no row that nobody deleted. */
  lemma Converged(cfg: Config, net: Net, steps: seq<Step>, i: Site, j: Site, row: RowId)
    requires GoodConfig(cfg) && Start(net) && CleanRun(cfg, net, steps)
    requires var end := Run(cfg, net, steps);
      i in end.dbs && j in end.dbs && CaughtUp(cfg, end, i, j) && CaughtUp(cfg, end, j, i)
    ensures var end := Run(cfg, net, steps);
      ShowSame(end.dbs[i], end.dbs[j], row) <==> !Hides(cfg, end, i, j, row) && !Hides(cfg, end, j, i, row)
  {
    hide Inv, Run, LegalRun, Start, GoodConfig, CaughtUp, Hides, ShowSame;
    RunKeeps(cfg, net, steps);
    CaughtUpAgree(cfg, Run(cfg, net, steps), i, j, row);
  }
}
