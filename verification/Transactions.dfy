/** Transactions that stay open for several steps, on every run: what an open database has to do
    with the committed one, and what a whole transaction does when nothing comes in between. */
module Transactions {
  import opened Wrappers
  import opened ByteOrder
  import opened Crdt
  import opened Merging
  import opened Replica
  import opened Domination
  import opened Replication

  // ---- Moving forward ---------------------------------------------------------------------

  /** y came out of x by commits. */
  ghost predicate Follows(x: Db, y: Db) {
    Advances(x, y, DbVersion(x.clock)) && DbVersion(x.clock) <= DbVersion(y.clock)
  }

  lemma SoundFollows(x: Db, y: Db)
    requires Sound(y) && Advances(x, y, DbVersion(x.clock))
    ensures Follows(x, y) && DbVersion(y.clock) >= 0
  {
    hide Advances, RowsPresent, RowEntries, Defaults;
    AdvancesVersion(x, y);
  }

  lemma FollowsSelf(x: Db)
    requires Sound(x)
    ensures Follows(x, x) && DbVersion(x.clock) >= 0
  {
    hide Advances, Sound;
    AdvancesSelf(x, DbVersion(x.clock));
    SoundFollows(x, x);
  }

  lemma FollowsTransitive(x: Db, y: Db, z: Db)
    requires Follows(x, y) && Follows(y, z)
    ensures Follows(x, z)
  {
    hide Advances;
    AdvancesLess(y, z, DbVersion(y.clock), DbVersion(x.clock));
    AdvancesTransitive(x, y, z, DbVersion(x.clock));
  }

  lemma AdvancesLess(x: Db, y: Db, b: int, less: int)
    requires Advances(x, y, b) && less <= b
    ensures Advances(x, y, less)
  {
    hide Le, Tomb;
  }

  /** y came out of x by statements and merges, perhaps not yet committed. */
  ghost predicate Grows(x: Db, y: Db) {
    Advances(x, y, 0)
  }

  lemma GrowsSelf(x: Db)
    ensures Grows(x, x)
  {
    AdvancesSelf(x, 0);
  }

  lemma GrowsTransitive(x: Db, y: Db, z: Db)
    requires Grows(x, y) && Grows(y, z)
    ensures Grows(x, z)
  {
    AdvancesTransitive(x, y, z, 0);
  }

  lemma FollowsGrows(x: Db, y: Db)
    requires Sound(x) && Follows(x, y)
    ensures Grows(x, y)
  {
    hide Advances, Sound;
    FollowsSelf(x);
    AdvancesLess(x, y, DbVersion(x.clock), 0);
  }

  // ---- An open transaction ----------------------------------------------------------------

  /** What an open transaction wrote lies above the committed version. */
  ghost predicate Opened(base: Db, db: Db) {
    Sound(db) && Advances(base, db, DbVersion(base.clock))
  }

  lemma OpenedSelf(base: Db)
    requires Sound(base)
    ensures Opened(base, base) && DbVersion(base.clock) >= 0
  {
    hide Sound, Advances;
    FollowsSelf(base);
  }

  lemma OpenedFollows(base: Db, db: Db)
    requires Sound(base) && Opened(base, db)
    ensures Follows(base, db) && Grows(base, db)
  {
    hide Sound, Advances;
    SoundFollows(base, db);
    FollowsGrows(base, db);
  }

  /** One statement in an open transaction. */
  lemma StatementResult(cfg: Config, base: Db, db: Db, w: Write)
    requires GoodConfig(cfg) && Sound(base) && Opened(base, db) && Permitted(cfg, db, w)
    ensures var after := WriteOne(cfg, db, w, DbVersion(base.clock) + 1);
      Opened(base, after) && Grows(db, after) && OwnEntries(db, after)
  {
    hide Sound, Advances, WriteOne, Permitted, OwnEntries, GoodConfig;
    FollowsSelf(base);
    var b := DbVersion(base.clock);
    WriteOneSound(cfg, db, w, b);
    WriteOneSites(cfg, db, w, b + 1);
    AdvancesTransitive(base, db, WriteOne(cfg, db, w, b + 1), b);
    AdvancesLess(db, WriteOne(cfg, db, w, b + 1), b, 0);
  }

  /** An entry that the merge of a change made. */
  ghost predicate MadeBy(db: Db, after: Db, ch: Change, cell: Cell)
    requires cell in after.clock
  {
    CellOf(ch) == cell && after.clock[cell].site == Some(ch.site) && !Tomb(db, cell.row) &&
    (IsColumn(cell) ==> !Tomb(after, cell.row) && StampOf(after, cell) == StampOfChange(ch))
  }

  lemma MergeMakes(db: Db, ch: Change, next: int, cell: Cell)
    requires RowsPresent(db) && Merge(db, ch, next).Ok? && cell in Merge(db, ch, next).value.clock
    ensures var after := Merge(db, ch, next).value; Kept(db, after, cell) || MadeBy(db, after, ch, cell)
  {
    hide Lt;
  }

  /** One merge in an open transaction. */
  lemma MergeResult(base: Db, db: Db, ch: Change) returns (after: Db)
    requires Sound(base) && Opened(base, db)
    ensures Merge(db, ch, DbVersion(base.clock) + 1) == Ok(after)
    ensures Opened(base, after) && Grows(db, after) && Absorbed(after, ch)
    ensures forall cell | cell in after.clock :: Kept(db, after, cell) || MadeBy(db, after, ch, cell)
  {
    hide Sound, RowsPresent, Advances, Merge, Kept, MadeBy, Absorbed;
    FollowsSelf(base);
    SoundRows(db);
    var b := DbVersion(base.clock);
    MergeSound(db, ch, b + 1);
    MergeAdvances(db, ch, b);
    MergeAbsorbs(db, ch, b + 1);
    after := Merge(db, ch, b + 1).value;
    AdvancesTransitive(base, db, after, b);
    AdvancesLess(db, after, b, 0);
    forall cell | cell in after.clock ensures Kept(db, after, cell) || MadeBy(db, after, ch, cell) {
      MergeMakes(db, ch, b + 1, cell);
    }
  }

  // ---- What every step keeps --------------------------------------------------------------

  ghost predicate AllSound(dbs: Dbs) {
    forall s | s in dbs :: Sound(dbs[s])
  }

  ghost predicate Basic(dbs: Dbs, txs: Txs) {
    AllSound(dbs) && forall s | s in txs :: s in dbs && Opened(dbs[s], txs[s].db)
  }

  lemma BasicSite(dbs: Dbs, txs: Txs, s: Site)
    requires Basic(dbs, txs) && s in dbs
    ensures Sound(dbs[s]) && DbVersion(dbs[s].clock) >= 0 && (s in txs ==> Opened(dbs[s], txs[s].db))
  {
    hide Sound, Opened;
    FollowsSelf(dbs[s]);
  }

  lemma BasicTx(dbs: Dbs, txs: Txs, s: Site, tx: Tx)
    requires Basic(dbs, txs) && s in dbs && Opened(dbs[s], tx.db)
    ensures Basic(dbs, txs[s := tx])
  {
    hide Sound, Opened;
  }

  lemma BasicEnd(dbs: Dbs, txs: Txs, s: Site)
    requires Basic(dbs, txs) && s in txs
    ensures Basic(dbs[s := txs[s].db], txs - {s})
  {
    hide Sound, Advances;
  }

  lemma BasicLess(dbs: Dbs, txs: Txs, s: Site)
    requires Basic(dbs, txs)
    ensures Basic(dbs, txs - {s})
  {
    hide Sound, Opened;
  }

  lemma BasicStatement(cfg: Config, net: Net, s: Site, w: Write)
    requires GoodConfig(cfg) && Basic(net.dbs, net.txs) && Enabled(cfg, net, Statement(s, w))
    ensures var after := Do(cfg, net, Statement(s, w)); Basic(after.dbs, after.txs)
  {
    hide Basic, Sound, Opened, Permitted, WriteOne, GoodConfig;
    BasicSite(net.dbs, net.txs, s);
    StatementResult(cfg, net.dbs[s], net.txs[s].db, w);
    BasicTx(net.dbs, net.txs, s, net.txs[s].(db := WriteOne(cfg, net.txs[s].db, w, Next(net, s))));
  }

  lemma BasicMerge(cfg: Config, net: Net, s: Site)
    requires Basic(net.dbs, net.txs) && Enabled(cfg, net, MergeNext(s))
    ensures var after := Do(cfg, net, MergeNext(s)); Basic(after.dbs, after.txs)
  {
    hide Basic, Sound, Opened, Merge, Kept, MadeBy;
    BasicSite(net.dbs, net.txs, s);
    var tx := net.txs[s];
    var db := MergeResult(net.dbs[s], tx.db, tx.push.value.changes[tx.merged]);
    BasicTx(net.dbs, net.txs, s, tx.(db := db, merged := tx.merged + 1));
  }

  /** Every step keeps the committed databases sound and the open ones above them. */
  lemma BasicKept(cfg: Config, net: Net, step: Step)
    requires GoodConfig(cfg) && Basic(net.dbs, net.txs) && Enabled(cfg, net, step)
    ensures var after := Do(cfg, net, step); Basic(after.dbs, after.txs)
  {
    hide Basic, GoodConfig, Permitted, Merge, ReadSet, Sound, Opened;
    match step
    case Begin(s, push) =>
      BasicSite(net.dbs, net.txs, s);
      OpenedSelf(net.dbs[s]);
      BasicTx(net.dbs, net.txs, s, Tx(net.dbs[s], push, 0, false));
    case Statement(s, w) => BasicStatement(cfg, net, s, w);
    case MergeNext(s) => BasicMerge(cfg, net, s);
    case Record(s) =>
      BasicSite(net.dbs, net.txs, s);
      BasicTx(net.dbs, net.txs, s, net.txs[s].(recorded := true));
    case End(s) => BasicEnd(net.dbs, net.txs, s);
    case Abort(s) => BasicLess(net.dbs, net.txs, s);
    case Poke(_, _, _) =>
    case Serve(_, _) =>
  }

  // ---- Runs -------------------------------------------------------------------------------

  ghost predicate Start(net: Net) {
    (forall s | s in net.dbs :: net.dbs[s] == EMPTY) && net.txs == map[] && net.cursors == map[] &&
    net.requests == {} && net.pushes == {}
  }

  ghost predicate LegalRun(cfg: Config, net: Net, steps: seq<Step>)
    decreases |steps|, 0
  {
    steps == [] ||
    (var n := |steps| - 1;
     LegalRun(cfg, net, steps[..n]) && Enabled(cfg, Run(cfg, net, steps[..n]), steps[n]))
  }

  ghost function Run(cfg: Config, net: Net, steps: seq<Step>): Net
    requires LegalRun(cfg, net, steps)
    decreases |steps|, 1
  {
    if steps == [] then net else
      var n := |steps| - 1;
      Do(cfg, Run(cfg, net, steps[..n]), steps[n])
  }

  lemma OneStepMore(cfg: Config, net: Net, steps: seq<Step>, step: Step)
    requires LegalRun(cfg, net, steps) && Enabled(cfg, Run(cfg, net, steps), step)
    ensures LegalRun(cfg, net, steps + [step])
    ensures Run(cfg, net, steps + [step]) == Do(cfg, Run(cfg, net, steps), step)
  {
    hide Enabled, Do;
    assert (steps + [step])[..|steps|] == steps;
  }

  lemma {:induction false} RunBasic(cfg: Config, net: Net, steps: seq<Step>)
    requires GoodConfig(cfg) && Start(net) && LegalRun(cfg, net, steps)
    ensures var end := Run(cfg, net, steps); Basic(end.dbs, end.txs)
  {
    hide Basic, Do, Enabled, GoodConfig;
    if steps == [] {
      StartBasic(net);
    } else {
      var n := |steps| - 1;
      RunBasic(cfg, net, steps[..n]);
      BasicKept(cfg, Run(cfg, net, steps[..n]), steps[n]);
    }
  }

  lemma StartBasic(net: Net)
    requires Start(net)
    ensures Basic(net.dbs, net.txs)
  {
  }

  lemma RunFront(cfg: Config, net: Net, steps: seq<Step>)
    requires LegalRun(cfg, net, steps) && steps != []
    ensures var n := |steps| - 1;
      LegalRun(cfg, net, steps[..n]) && Enabled(cfg, Run(cfg, net, steps[..n]), steps[n]) &&
      Run(cfg, net, steps) == Do(cfg, Run(cfg, net, steps[..n]), steps[n])
  {
    hide Enabled, Do;
  }

  lemma NoSteps(cfg: Config, net: Net)
    ensures LegalRun(cfg, net, []) && Run(cfg, net, []) == net
  {
  }

  lemma {:induction false} RunJoined(cfg: Config, net: Net, steps: seq<Step>, more: seq<Step>)
    requires LegalRun(cfg, net, steps) && LegalRun(cfg, Run(cfg, net, steps), more)
    ensures LegalRun(cfg, net, steps + more)
    ensures Run(cfg, net, steps + more) == Run(cfg, Run(cfg, net, steps), more)
  {
    hide Enabled, Do, LegalRun, Run;
    if more == [] {
      assert steps + more == steps;
      NoSteps(cfg, Run(cfg, net, steps));
    } else {
      var n := |more| - 1;
      RunFront(cfg, Run(cfg, net, steps), more);
      RunJoined(cfg, net, steps, more[..n]);
      OneStepMore(cfg, net, steps + more[..n], more[n]);
      assert steps + more[..n] + [more[n]] == steps + more;
    }
  }

  // ---- Whole transactions -----------------------------------------------------------------

  function Statements(s: Site, writes: seq<Write>): seq<Step> {
    if writes == [] then [] else
      var n := |writes| - 1;
      Statements(s, writes[..n]) + [Statement(s, writes[n])]
  }

  function Merges(s: Site, n: nat): seq<Step> {
    if n == 0 then [] else Merges(s, n - 1) + [MergeNext(s)]
  }

  /** A transaction of the application, with nothing in between. */
  function Transaction(s: Site, writes: seq<Write>): seq<Step> {
    [Begin(s, None)] + Statements(s, writes) + [End(s)]
  }

  /** Taking in a push, with nothing in between. */
  function Receipt(p: Push): seq<Step> {
    [Begin(p.target, Some(p))] + Merges(p.target, |p.changes|) + [Record(p.target)] + [End(p.target)]
  }

  /** The network after an open transaction went on. */
  function WithTx(net: Net, s: Site, tx: Tx): Net {
    net.(txs := net.txs[s := tx])
  }

  lemma {:induction false} StatementsRun(cfg: Config, net: Net, s: Site, writes: seq<Write>)
    requires s in net.dbs && s in net.txs && PermittedAll(cfg, net.txs[s].db, writes, Next(net, s))
    ensures LegalRun(cfg, net, Statements(s, writes))
    ensures Run(cfg, net, Statements(s, writes)) ==
      WithTx(net, s, net.txs[s].(db := WriteAll(cfg, net.txs[s].db, writes, Next(net, s))))
  {
    hide Permitted, WriteOne, LegalRun, Run;
    if writes == [] {
      NoSteps(cfg, net);
      assert WithTx(net, s, net.txs[s]) == net;
    } else {
      var n := |writes| - 1;
      StatementsRun(cfg, net, s, writes[..n]);
      OneStepMore(cfg, net, Statements(s, writes[..n]), Statement(s, writes[n]));
    }
  }

  lemma {:induction false} MergesRun(cfg: Config, net: Net, s: Site, n: nat)
    requires s in net.dbs && s in net.txs && net.txs[s].push.Some? && net.txs[s].merged == 0
    requires n <= |net.txs[s].push.value.changes|
    requires MergeAll(net.txs[s].db, net.txs[s].push.value.changes[..n], Next(net, s)).Ok?
    ensures LegalRun(cfg, net, Merges(s, n))
    ensures var tx := net.txs[s];
      Run(cfg, net, Merges(s, n)) ==
        WithTx(net, s, tx.(db := MergeAll(tx.db, tx.push.value.changes[..n], Next(net, s)).value, merged := n))
  {
    hide Merge, MergeAll, LegalRun, Run;
    var tx := net.txs[s];
    if n == 0 {
      NoSteps(cfg, net);
      MergeNothing(tx.db, tx.push.value.changes, Next(net, s));
      assert WithTx(net, s, tx) == net;
    } else {
      MergeOneMore(tx.db, tx.push.value.changes, n, Next(net, s));
      MergesRun(cfg, net, s, n - 1);
      OneStepMore(cfg, net, Merges(s, n - 1), MergeNext(s));
    }
  }

  lemma MergeNothing(db: Db, changes: seq<Change>, next: int)
    ensures MergeAll(db, changes[..0], next) == Ok(db)
  {
  }

  lemma MergeOneMore(db: Db, changes: seq<Change>, n: nat, next: int)
    requires 0 < n <= |changes| && MergeAll(db, changes[..n], next).Ok?
    ensures MergeAll(db, changes[..n - 1], next).Ok?
    ensures MergeAll(db, changes[..n], next) == Merge(MergeAll(db, changes[..n - 1], next).value, changes[n - 1], next)
  {
    hide Merge;
    assert changes[..n][..n - 1] == changes[..n - 1];
  }

  lemma OneStep(cfg: Config, net: Net, step: Step)
    requires Enabled(cfg, net, step)
    ensures LegalRun(cfg, net, [step]) && Run(cfg, net, [step]) == Do(cfg, net, step)
  {
    hide Enabled, Do;
    OneStepMore(cfg, net, [], step);
    assert [] + [step] == [step];
  }

  /** A transaction with nothing in between is one step of the database. */
  lemma TransactionAtOnce(cfg: Config, net: Net, s: Site, writes: seq<Write>)
    requires s in net.dbs && s !in net.txs && PermittedAll(cfg, net.dbs[s], writes, Next(net, s))
    ensures LegalRun(cfg, net, Transaction(s, writes))
    ensures Run(cfg, net, Transaction(s, writes)) ==
      net.(dbs := net.dbs[s := WriteAll(cfg, net.dbs[s], writes, Next(net, s))])
  {
    hide LegalRun, Run, PermittedAll, WriteAll, Statements;
    OneStep(cfg, net, Begin(s, None));
    var begun := Do(cfg, net, Begin(s, None));
    StatementsRun(cfg, begun, s, writes);
    RunJoined(cfg, net, [Begin(s, None)], Statements(s, writes));
    var run := [Begin(s, None)] + Statements(s, writes);
    OneStepMore(cfg, net, run, End(s));
    assert Run(cfg, net, run).txs - {s} == net.txs;
  }

  /** Taking in a push with nothing in between is one step: everything is merged, the cursor set. */
  lemma ReceiptAtOnce(cfg: Config, net: Net, p: Push)
    requires p in net.pushes && p.target in net.dbs && p.target !in net.txs
    requires MergeAll(net.dbs[p.target], p.changes, Next(net, p.target)).Ok?
    ensures LegalRun(cfg, net, Receipt(p))
    ensures Run(cfg, net, Receipt(p)) ==
      net.(dbs := net.dbs[p.target := MergeAll(net.dbs[p.target], p.changes, Next(net, p.target)).value],
           cursors := net.cursors[(p.target, p.source) := MaxVersion(p.changes)])
  {
    hide LegalRun, Run, MergeAll, Merges, MaxVersion;
    var s := p.target;
    OneStep(cfg, net, Begin(s, Some(p)));
    var begun := Do(cfg, net, Begin(s, Some(p)));
    assert p.changes[..|p.changes|] == p.changes;
    MergesRun(cfg, begun, s, |p.changes|);
    RunJoined(cfg, net, [Begin(s, Some(p))], Merges(s, |p.changes|));
    var run := [Begin(s, Some(p))] + Merges(s, |p.changes|);
    OneStepMore(cfg, net, run, Record(s));
    OneStepMore(cfg, net, run + [Record(s)], End(s));
    assert Run(cfg, net, run + [Record(s)]).txs - {s} == net.txs;
  }

  ghost predicate Addressed(net: Net) {
    (forall r | r in net.requests :: r.target in net.dbs) && (forall p | p in net.pushes :: p.target in net.dbs)
  }

  lemma {:induction false} RunAddressed(cfg: Config, net: Net, steps: seq<Step>)
    requires Start(net) && LegalRun(cfg, net, steps)
    ensures Addressed(Run(cfg, net, steps))
  {
    hide LegalRun, Run, Enabled, Do;
    if steps == [] {
      NoSteps(cfg, net);
    } else {
      RunFront(cfg, net, steps);
      RunAddressed(cfg, net, steps[..|steps| - 1]);
      StepAddressed(cfg, Run(cfg, net, steps[..|steps| - 1]), steps[|steps| - 1]);
    }
  }

  lemma StepAddressed(cfg: Config, net: Net, step: Step)
    requires Addressed(net) && Enabled(cfg, net, step)
    ensures Addressed(Do(cfg, net, step))
  {
    hide Permitted, WriteOne, Merge, ReadSet, MaxVersion, DbVersion;
  }

  /** On every run, dirty reads included, no push is ever refused: between transactions its target
      can take it in. */
  lemma PushesAccepted(cfg: Config, net: Net, steps: seq<Step>, p: Push)
    requires GoodConfig(cfg) && Start(net) && LegalRun(cfg, net, steps)
    requires p in Run(cfg, net, steps).pushes && p.target !in Run(cfg, net, steps).txs
    ensures LegalRun(cfg, net, steps + Receipt(p))
    ensures var before, after := Run(cfg, net, steps), Run(cfg, net, steps + Receipt(p));
      Cursor(after, p.target, p.source) == MaxVersion(p.changes) && p.target in before.dbs &&
      MergeAll(before.dbs[p.target], p.changes, Next(before, p.target)) == Ok(after.dbs[p.target])
  {
    hide LegalRun, Run, MergeAll, Receipt, MaxVersion, Basic, Sound, Start, GoodConfig;
    var before := Run(cfg, net, steps);
    RunAddressed(cfg, net, steps);
    RunBasic(cfg, net, steps);
    BasicSite(before.dbs, before.txs, p.target);
    MergeAllSound(before.dbs[p.target], p.changes, DbVersion(before.dbs[p.target].clock));
    ReceiptAtOnce(cfg, before, p);
    RunJoined(cfg, net, steps, Receipt(p));
  }

  /** Whatever is in the way: the next change of a push is never refused. */
  lemma MergesAccepted(cfg: Config, net: Net, steps: seq<Step>, s: Site)
    requires GoodConfig(cfg) && Start(net) && LegalRun(cfg, net, steps) && s in Run(cfg, net, steps).txs
    requires var tx := Run(cfg, net, steps).txs[s]; tx.push.Some? && tx.merged < |tx.push.value.changes|
    ensures LegalRun(cfg, net, steps + [MergeNext(s)])
  {
    hide LegalRun, Run, Merge, Basic, Sound, Opened, Start, GoodConfig, Absorbed, Kept, MadeBy;
    var end := Run(cfg, net, steps);
    RunBasic(cfg, net, steps);
    BasicHas(end.dbs, end.txs, s);
    BasicSite(end.dbs, end.txs, s);
    var tx := end.txs[s];
    var _ := MergeResult(end.dbs[s], tx.db, tx.push.value.changes[tx.merged]);
    OneStepMore(cfg, net, steps, MergeNext(s));
  }

  lemma BasicHas(dbs: Dbs, txs: Txs, s: Site)
    requires Basic(dbs, txs) && s in txs
    ensures s in dbs
  {
  }
}
