/** Reads that return what a transaction still open wrote: which entries such a read leaves behind
    the cursor that it leads to. */
module DirtyReads {
  import opened Wrappers
  import opened Crdt
  import opened Merging
  import opened Replica
  import opened Domination
  import opened Replication
  import opened Transactions
  import opened CursorSafety

  // ---- What a database has of an entry after a message ------------------------------------

  lemma TombComesFrom(j: Db, after: Db, changes: seq<Change>, row: RowId)
    requires Tomb(after, row) && ComesFrom(j, after, changes, Cell(row, DELETE_CID))
    ensures Tomb(j, row) || exists ch :: ch in changes && ch.row == row && ch.cid == DELETE_CID
  {
  }

  lemma CoveredComesFrom(j: Db, after: Db, changes: seq<Change>, i: Db, cell: Cell)
    requires cell in i.clock && IsColumn(cell) && !Tomb(i, cell.row) && !Tomb(after, cell.row)
    requires cell in after.clock && Le(StampOf(i, cell), StampOf(after, cell)) && ComesFrom(j, after, changes, cell)
    ensures Covered(j, i, cell) || Answered(changes, i, cell)
  {
    hide Le, Tomb;
    if !Kept(j, after, cell) {
      var ch :| ch in changes && CellOf(ch) == cell && StampOf(after, cell) == StampOfChange(ch);
      assert Answers(ch, i, cell);
    }
  }

  lemma DeleteAnswers(changes: seq<Change>, i: Db, cell: Cell)
    requires cell in i.clock && exists ch :: ch in changes && ch.row == cell.row && ch.cid == DELETE_CID
    ensures Answered(changes, i, cell)
  {
    hide Le;
    var ch :| ch in changes && ch.row == cell.row && ch.cid == DELETE_CID;
    assert Answers(ch, i, cell);
  }

  /** Exactly what it had and what the message answers. */
  lemma MergedCoveredIff(j: Db, changes: seq<Change>, i: Db, cell: Cell)
    requires Sound(j) && cell in i.clock
    ensures MergeAll(j, changes, DbVersion(j.clock) + 1).Ok?
    ensures Covered(MergeAll(j, changes, DbVersion(j.clock) + 1).value, i, cell) <==>
      Covered(j, i, cell) || Answered(changes, i, cell)
  {
    hide Sound, Advances, MergeAll, ComesFrom, Absorbed, Answered, StampOf, Le;
    var b := DbVersion(j.clock);
    FollowsSelf(j);
    SoundRows(j);
    MergeAllSound(j, changes, b);
    MergeAllAbsorbs(j, changes, b);
    var after := MergeAll(j, changes, b + 1).value;
    if Covered(j, i, cell) {
      AdvancesSelf(i, DbVersion(i.clock));
      CoveredStays(j, after, b, i, i, cell);
    } else if Answered(changes, i, cell) {
      AnsweredCovered(after, changes, i, cell);
    } else if Covered(after, i, cell) {
      if Tomb(after, cell.row) {
        TombComesFrom(j, after, changes, cell.row);
        DeleteAnswers(changes, i, cell);
      } else {
        CoveredComesFrom(j, after, changes, i, cell);
      }
    }
  }

  // ---- A read of an open transaction ------------------------------------------------------

  /** An entry that was not written again since a read saw it, nor its row brought back by a
      rollback. */
  ghost predicate Stands(seen: Db, now: Db, cell: Cell)
    requires cell in now.clock
  {
    Kept(seen, now, cell) && (Tomb(seen, cell.row) ==> Tomb(now, cell.row))
  }

  lemma ReadAnswersNow(seen: Db, now: Db, self: Site, cell: Cell)
    requires Sound(seen) && cell in now.clock && Stands(seen, now, cell)
    ensures Answers(ReadEntry(seen, self, cell), now, cell)
  {
    hide Le, Defaults;
    LeSelf(StampOf(now, cell));
  }

  lemma SelectedAnswersNow(seen: Db, now: Db, self: Site, since: int, who: Option<Site>, changes: seq<Change>,
    cell: Cell)
    requires Sound(seen) && (set ch | ch in changes) == ReadSet(seen, self, since, who)
    requires cell in now.clock && Stands(seen, now, cell) && Selected(seen, cell, since, who)
    ensures Answered(changes, now, cell)
  {
    hide Sound, Stands, Answers, ReadEntry;
    ReadAnswersNow(seen, now, self, cell);
    assert ReadEntry(seen, self, cell) in ReadSet(seen, self, since, who);
    assert ReadEntry(seen, self, cell) in changes;
  }

  /** What is left out because it carries the requestor's site. */
  lemma OwnStands(cfg: Config, dbs: Dbs, seen: Db, now: Db, target: Site, since: int, cell: Cell)
    requires target in dbs && cell in now.clock && Stands(seen, now, cell) && EntryHome(dbs, seen, cell)
    requires now.clock[cell].dbVersion > since && !Selected(seen, cell, since, Requestor(cfg, target))
    ensures Covered(dbs[target], now, cell) || Withheld(cfg, target, now, cell)
  {
    hide HasRow, Le;
  }

  lemma KnownNow(cfg: Config, site: Site, j0: Db, j: Db, base: Db, now: Db, upto: int, cell: Cell)
    requires Known(cfg, site, j0, base, upto) && Grows(j0, j) && Follows(base, now)
    requires cell in now.clock && now.clock[cell].dbVersion <= upto
    ensures Covered(j, now, cell) || Withheld(cfg, site, now, cell)
  {
    hide Known, Follows, Grows, Covered;
    KnownStays(cfg, site, j0, j, base, now, upto);
    KnownHas(cfg, site, j, now, upto, cell);
  }

  lemma KnownHas(cfg: Config, site: Site, j: Db, i: Db, upto: int, cell: Cell)
    requires Known(cfg, site, j, i, upto) && cell in i.clock && i.clock[cell].dbVersion <= upto
    ensures Covered(j, i, cell) || Withheld(cfg, site, i, cell)
  {
  }

  /** What stands since the read, the requestor has, or it is kept back from it, or the read answers
      for it: whatever became of the transaction. */
  lemma StandsKnown(cfg: Config, dbs: Dbs, j0: Db, j: Db, seen: Db, now: Db, source: Site, target: Site, since: int,
    changes: seq<Change>, cell: Cell)
    requires source in dbs && target in dbs && Sound(seen) && cell in seen.clock && EntryHome(dbs, seen, cell)
    requires Known(cfg, target, j0, dbs[source], since) && Grows(j0, j) && Grows(dbs[target], j)
    requires Follows(dbs[source], now) && cell in now.clock && Stands(seen, now, cell)
    requires (set ch | ch in changes) == ReadSet(seen, source, since, Requestor(cfg, target))
    ensures Covered(j, now, cell) || Withheld(cfg, target, now, cell) || Answered(changes, now, cell)
  {
    hide Sound, EntryHome, Known, Grows, Follows, Stands, Covered, Withheld, Answered, ReadSet, Selected, Requestor;
    if now.clock[cell].dbVersion <= since {
      KnownNow(cfg, target, j0, j, dbs[source], now, since, cell);
    } else if Selected(seen, cell, since, Requestor(cfg, target)) {
      SelectedAnswersNow(seen, now, source, since, Requestor(cfg, target), changes, cell);
    } else {
      OwnStands(cfg, dbs, seen, now, target, since, cell);
      if Covered(dbs[target], now, cell) { CoveredGrows(dbs[target], j, now, cell); }
    }
  }

  // ---- Databases along a run --------------------------------------------------------------

  /** What recorded its cursor merged all of its push. */
  ghost predicate RecordedMerged(txs: Txs) {
    forall s | s in txs && txs[s].recorded :: AllMerged(txs[s])
  }

  /** Every step moves the committed and the settled databases forward. */
  lemma StepGrows(cfg: Config, net: Net, step: Step)
    requires GoodConfig(cfg) && Basic(net.dbs, net.txs) && RecordedMerged(net.txs) && Enabled(cfg, net, step)
    ensures var after := Do(cfg, net, step);
      RecordedMerged(after.txs) && AllFollow(net.dbs, after.dbs) &&
      AllGrow(Settled(net.dbs, net.txs), Settled(after.dbs, after.txs))
  {
    hide Basic, Sound, Opened, Settled, Follows, Grows, AllFollow, AllGrow, AllSound;
    hide Permitted, WriteOne, Merge, ReadSet, GoodConfig;
    BasicSound(net.dbs, net.txs);
    AllFollowSelf(net.dbs);
    AllGrowSelf(Settled(net.dbs, net.txs));
    match step
    case Begin(s, push) => TxGrows(net, s, Tx(net.dbs[s], push, 0, false));
    case Statement(s, w) =>
      BasicSite(net.dbs, net.txs, s);
      StatementResult(cfg, net.dbs[s], net.txs[s].db, w);
      TxGrows(net, s, net.txs[s].(db := WriteOne(cfg, net.txs[s].db, w, Next(net, s))));
    case MergeNext(s) => MergeGrows(cfg, net, s);
    case Record(s) => RecordGrows(net, s);
    case End(s) => EndGrows(cfg, net, s);
    case Abort(s) => SettledAbort(net.dbs, net.txs, s);
    case Poke(_, _, _) =>
    case Serve(_, _) =>
  }

  lemma AllGrowSelf(dbs: Dbs)
    ensures AllGrow(dbs, dbs)
  {
    hide Grows;
    forall s | s in dbs ensures Grows(dbs[s], dbs[s]) { GrowsSelf(dbs[s]); }
  }

  lemma TxGrows(net: Net, s: Site, tx: Tx)
    requires s in net.dbs
    requires if s in net.txs then tx.recorded == net.txs[s].recorded && Grows(net.txs[s].db, tx.db) else !tx.recorded
    ensures AllGrow(Settled(net.dbs, net.txs), Settled(net.dbs, net.txs[s := tx]))
  {
    hide Settled, Grows, AllGrow;
    SettledTx(net.dbs, net.txs, s, tx);
    SettledSame(net.dbs, net.txs, s);
    SettledHas(net.dbs, net.txs, s);
    GrowsSelf(net.dbs[s]);
    OneGrows(Settled(net.dbs, net.txs), s, if tx.recorded then tx.db else net.dbs[s]);
  }

  lemma MergeGrows(cfg: Config, net: Net, s: Site)
    requires Basic(net.dbs, net.txs) && RecordedMerged(net.txs) && Enabled(cfg, net, MergeNext(s))
    ensures var after := Do(cfg, net, MergeNext(s));
      RecordedMerged(after.txs) && AllGrow(Settled(net.dbs, net.txs), Settled(after.dbs, after.txs))
  {
    hide Basic, Sound, Opened, Settled, Grows, AllGrow, Merge, Kept, MadeBy, Absorbed;
    BasicSite(net.dbs, net.txs, s);
    var tx := net.txs[s];
    var db := MergeResult(net.dbs[s], tx.db, tx.push.value.changes[tx.merged]);
    TxGrows(net, s, tx.(db := db, merged := tx.merged + 1));
  }

  lemma RecordGrows(net: Net, s: Site)
    requires Basic(net.dbs, net.txs) && s in net.dbs && s in net.txs && !net.txs[s].recorded
    ensures AllGrow(Settled(net.dbs, net.txs), Settled(net.dbs, net.txs[s := net.txs[s].(recorded := true)]))
  {
    hide Basic, Sound, Opened, Settled, Grows, AllGrow, Follows;
    BasicSite(net.dbs, net.txs, s);
    OpenedFollows(net.dbs[s], net.txs[s].db);
    SettledTx(net.dbs, net.txs, s, net.txs[s].(recorded := true));
    SettledSame(net.dbs, net.txs, s);
    SettledHas(net.dbs, net.txs, s);
    OneGrows(Settled(net.dbs, net.txs), s, net.txs[s].db);
  }

  lemma EndGrows(cfg: Config, net: Net, s: Site)
    requires Basic(net.dbs, net.txs) && AllSound(net.dbs) && Enabled(cfg, net, End(s))
    ensures var after := Do(cfg, net, End(s));
      AllFollow(net.dbs, after.dbs) && AllGrow(Settled(net.dbs, net.txs), Settled(after.dbs, after.txs))
  {
    hide Basic, Sound, Opened, Settled, Grows, Follows, AllGrow, AllFollow, AllSound, MaxVersion, AllMerged;
    BasicSite(net.dbs, net.txs, s);
    OpenedFollows(net.dbs[s], net.txs[s].db);
    OneFollows(net.dbs, s, net.txs[s].db);
    SettledMoves(net, s);
  }

  lemma AllFollowTransitive(x: Dbs, y: Dbs, z: Dbs)
    requires AllFollow(x, y) && AllFollow(y, z)
    ensures AllFollow(x, z)
  {
    hide Follows;
    forall s | s in x ensures Follows(x[s], z[s]) { FollowsTransitive(x[s], y[s], z[s]); }
  }

  lemma AllGrowTransitive(x: Dbs, y: Dbs, z: Dbs)
    requires AllGrow(x, y) && AllGrow(y, z)
    ensures AllGrow(x, z)
  {
    hide Grows;
    forall s | s in x ensures Grows(x[s], z[s]) { GrowsTransitive(x[s], y[s], z[s]); }
  }

  /** Whatever happens next, dirty reads and rollbacks included, moves the databases forward. */
  lemma {:induction false} LegalFollows(cfg: Config, net: Net, steps: seq<Step>)
    requires GoodConfig(cfg) && Basic(net.dbs, net.txs) && RecordedMerged(net.txs) && LegalRun(cfg, net, steps)
    ensures var end := Run(cfg, net, steps);
      Basic(end.dbs, end.txs) && RecordedMerged(end.txs) && AllFollow(net.dbs, end.dbs) &&
      AllGrow(Settled(net.dbs, net.txs), Settled(end.dbs, end.txs))
  {
    hide LegalRun, Run, Do, Enabled, GoodConfig, Basic, RecordedMerged, AllFollow, AllGrow, Settled, AllSound;
    if steps == [] {
      NoSteps(cfg, net);
      BasicSound(net.dbs, net.txs);
      AllFollowSelf(net.dbs);
      AllGrowSelf(Settled(net.dbs, net.txs));
    } else {
      var n := |steps| - 1;
      RunFront(cfg, net, steps);
      LegalFollows(cfg, net, steps[..n]);
      var front := Run(cfg, net, steps[..n]);
      StepGrows(cfg, front, steps[n]);
      BasicKept(cfg, front, steps[n]);
      var end := Do(cfg, front, steps[n]);
      AllFollowTransitive(net.dbs, front.dbs, end.dbs);
      AllGrowTransitive(Settled(net.dbs, net.txs), Settled(front.dbs, front.txs), Settled(end.dbs, end.txs));
    }
  }

  // ---- What a dirty read leaves behind ----------------------------------------------------

  /** Behind the cursor and lost: neither covered nor kept back on purpose. */
  ghost predicate LeftBehind(cfg: Config, site: Site, j: Db, i: Db, cell: Cell)
    requires cell in i.clock
  {
    !Covered(j, i, cell) && !Withheld(cfg, site, i, cell)
  }

  lemma InvRecorded(cfg: Config, net: Net)
    requires Inv(cfg, net)
    ensures Basic(net.dbs, net.txs) && RecordedMerged(net.txs)
  {
    hide Basic, TxsHome, CursorsKnown, RequestsKnown, PushesBear, EntriesHome, PushesHome, SomeAbsorbed, AllMerged;
  }

  /** The databases at a later point of a run on which a request was served at some point. */
  lemma LaterFollows(cfg: Config, net: Net, r: Request, changes: seq<Change>, more: seq<Step>)
    requires GoodConfig(cfg) && Inv(cfg, net) && Enabled(cfg, net, Serve(r, changes))
    requires LegalRun(cfg, Do(cfg, net, Serve(r, changes)), more)
    ensures var end := Run(cfg, Do(cfg, net, Serve(r, changes)), more);
      Basic(end.dbs, end.txs) && AllFollow(net.dbs, end.dbs) &&
      AllGrow(Settled(net.dbs, net.txs), Settled(end.dbs, end.txs))
  {
    hide Inv, LegalRun, Run, Basic, RecordedMerged, AllFollow, AllGrow, Settled, GoodConfig, ReadSet, Visible;
    InvRecorded(cfg, net);
    LegalFollows(cfg, Do(cfg, net, Serve(r, changes)), more);
  }

  lemma VisibleHome(cfg: Config, net: Net, s: Site, cell: Cell)
    requires Inv(cfg, net) && s in net.dbs && cell in Visible(net, s).clock
    ensures Sound(Visible(net, s)) && EntryHome(net.dbs, Visible(net, s), cell)
  {
    hide Inv, Sound, Advances, EntryHome, Superseded, Visible;
    VisibleOpened(cfg, net, s);
  }

  /** Later states of the source and of the target of a request. */
  ghost predicate Later(net: Net, r: Request, j: Db, now: Db) {
    r.source in net.dbs && r.target in net.dbs && Follows(net.dbs[r.source], now) &&
    Grows(Settled(net.dbs, net.txs)[r.target], j)
  }

  /** For a later state of both databases: what stands since the read is not left behind. */
  lemma StandsNotLeft(cfg: Config, net: Net, r: Request, changes: seq<Change>, j: Db, now: Db, cell: Cell)
    requires r.source in net.dbs && cell in now.clock && Stands(Visible(net, r.source), now, cell)
    requires Later(net, r, j, now) && Inv(cfg, net) && Enabled(cfg, net, Serve(r, changes))
    ensures Covered(j, now, cell) || Withheld(cfg, r.target, now, cell) || Answered(changes, now, cell)
  {
    hide Inv, Sound, Known, Grows, Follows, Covered, Withheld, Answered, Settled, Visible, EntryHome, ReadSet;
    RequestKnown(cfg, net, r);
    InvSound(cfg, net, r.source);
    SettledGrows(net.dbs, net.txs);
    var settled, seen := Settled(net.dbs, net.txs)[r.target], Visible(net, r.source);
    GrowsTransitive(net.dbs[r.target], settled, j);
    StandsSeen(seen, now, cell);
    VisibleHome(cfg, net, r.source, cell);
    StandsKnown(cfg, net.dbs, settled, j, seen, now, r.source, r.target, r.since, changes, cell);
  }

  lemma StandsSeen(seen: Db, now: Db, cell: Cell)
    requires cell in now.clock && Stands(seen, now, cell)
    ensures cell in seen.clock
  {
  }

  /** Take any clean run, a request served at its end, even from an open transaction, and whatever
      happens afterwards: the transaction may go on, commit or roll back. When the requestor then
      takes in the push, an entry up to the new cursor is left behind exactly when it was written
      after the read, is not kept back, was not covered before and is not answered by the push. */
  lemma DirtyReadIff(cfg: Config, net: Net, steps: seq<Step>, r: Request, changes: seq<Change>, more: seq<Step>,
    cell: Cell)
    requires GoodConfig(cfg) && Start(net) && CleanRun(cfg, net, steps)
    requires Enabled(cfg, Run(cfg, net, steps), Serve(r, changes))
    requires LegalRun(cfg, Do(cfg, Run(cfg, net, steps), Serve(r, changes)), more)
    requires var end := Run(cfg, Do(cfg, Run(cfg, net, steps), Serve(r, changes)), more);
      r.source in end.dbs && r.target in end.dbs && r.target !in end.txs && cell in end.dbs[r.source].clock
    ensures var seen := Visible(Run(cfg, net, steps), r.source);
      var end := Run(cfg, Do(cfg, Run(cfg, net, steps), Serve(r, changes)), more);
      var now, j := end.dbs[r.source], end.dbs[r.target];
      var taken := MergeAll(j, changes, Next(end, r.target));
      taken.Ok? &&
      (LeftBehind(cfg, r.target, taken.value, now, cell) <==>
        !Stands(seen, now, cell) && !Withheld(cfg, r.target, now, cell) && !Covered(j, now, cell) &&
        !Answered(changes, now, cell))
  {
    hide Inv, LegalRun, Run, Basic, AllFollow, AllGrow, Settled, Stands, Withheld, Covered, Answered, MergeAll, Sound;
    hide GoodConfig, Start, ReadSet, Visible, CleanRun, Follows, Grows;
    CleanIsLegal(cfg, net, steps);
    var at := Run(cfg, net, steps);
    RunKeeps(cfg, net, steps);
    LaterFollows(cfg, at, r, changes, more);
    var end := Run(cfg, Do(cfg, at, Serve(r, changes)), more);
    var now, j := end.dbs[r.source], end.dbs[r.target];
    BasicSite(end.dbs, end.txs, r.target);
    MergedCoveredIff(j, changes, now, cell);
    LaterSites(at, end, r);
    if Stands(Visible(at, r.source), now, cell) { StandsNotLeft(cfg, at, r, changes, j, now, cell); }
  }

  lemma LaterSites(at: Net, end: Net, r: Request)
    requires AllFollow(at.dbs, end.dbs) && AllGrow(Settled(at.dbs, at.txs), Settled(end.dbs, end.txs))
    requires r.source in end.dbs && r.target in end.dbs && r.target !in end.txs
    ensures Later(at, r, end.dbs[r.target], end.dbs[r.source])
  {
    hide Follows, Grows;
  }
}
