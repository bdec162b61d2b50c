/** Several connections to one file, each with its own version cache: whatever transactions
    commit, roll back or create clock tables in between, the cache answers with the version as of
    the start of the transaction. */
module VersionCache {
  import opened Wrappers
  import opened Crdt
  import opened ExtData

  /** A transaction: the snapshot it began with, its data version, and what it sees now. */
  datatype Tx = Tx(base: View, dataVersion: int, now: View, wrote: bool)

  /** A connection; `dataVersion` is what PRAGMA data_version counts for it: commits by others. */
  datatype Conn = Conn(ext: Ext, dataVersion: int, tx: Option<Tx>)

  /** The committed state, and the clock tables there were at each committed schema version. */
  datatype File = File(committed: View, conns: map<int, Conn>, schemas: map<int, set<string>>)

  datatype Event =
    | Begin(c: int)
    | Ask(c: int)
    | WriteEntry(c: int, table: string, remote: int)
    | CreateClockTable(c: int, table: string)
    | Commit(c: int)
    | Rollback(c: int)

  // ---- Events -----------------------------------------------------------------------------

  /** A write needs a snapshot that nobody has overtaken, and no other writer. */
  predicate MayWrite(f: File, c: int) {
    c in f.conns && f.conns[c].tx.Some? && f.conns[c].tx.value.dataVersion == f.conns[c].dataVersion &&
    forall d | d in f.conns && d != c && f.conns[d].tx.Some? :: !f.conns[d].tx.value.wrote
  }

  /** It is an error to change the schema and then fetch the version in the same transaction. */
  predicate MayAsk(f: File, c: int) {
    c in f.conns && f.conns[c].tx.Some? &&
    var conn := f.conns[c];
    conn.tx.value.now.schema == conn.tx.value.base.schema || Cached(conn.ext, conn.tx.value.dataVersion)
  }

  function Answer(conn: Conn): Outcome<Ext>
    requires conn.tx.Some?
  {
    Asked(conn.ext, conn.tx.value.now, conn.tx.value.dataVersion)
  }

  predicate Enabled(f: File, e: Event) {
    match e
    case Begin(c) => c in f.conns && f.conns[c].tx.None?
    case Ask(c) => MayAsk(f, c) && Answer(f.conns[c]).Ok?
    case WriteEntry(c, table, _) =>
      MayWrite(f, c) && MayAsk(f, c) && Answer(f.conns[c]).Ok? && table in f.conns[c].tx.value.now.tables
    case CreateClockTable(c, table) => MayWrite(f, c) && table !in f.conns[c].tx.value.now.tables
    case Commit(c) => c in f.conns && f.conns[c].tx.Some?
    case Rollback(c) => c in f.conns && f.conns[c].tx.Some?
  }

  function Add(view: View, table: string, version: int): View
    requires table in view.tables
  {
    view.(tables := view.tables[table := view.tables[table] + {version}])
  }

  /** How an event changes the connection that causes it. */
  function Move(f: File, e: Event): Conn
    requires Enabled(f, e)
  {
    var conn := f.conns[e.c];
    match e
    case Begin(_) => conn.(tx := Some(Tx(f.committed, conn.dataVersion, f.committed, false)))
    case Ask(_) => conn.(ext := Answer(conn).value)
    case WriteEntry(_, table, remote) =>
      var ext, tx := Answer(conn).value, conn.tx.value;
      conn.(ext := ext, tx := Some(tx.(now := Add(tx.now, table, Max(ext.dbVersion + 1, remote)), wrote := true)))
    case CreateClockTable(_, table) =>
      var tx := conn.tx.value;
      conn.(tx := Some(tx.(now := View(tx.now.tables[table := {}], tx.now.schema + 1), wrote := true)))
    case Commit(_) =>
      if conn.tx.value.wrote then conn.(ext := Ended(conn.ext), tx := None) else conn.(tx := None)
    case Rollback(_) => conn.(ext := Ended(conn.ext), tx := None)
  }

  /** A commit that wrote is what the others' data version counts. */
  function Do(f: File, e: Event): File
    requires Enabled(f, e)
  {
    var moved := f.conns[e.c := Move(f, e)];
    if e.Commit? && f.conns[e.c].tx.value.wrote then
      var now := f.conns[e.c].tx.value.now;
      File(now,
           map d | d in moved :: if d == e.c then moved[d] else moved[d].(dataVersion := moved[d].dataVersion + 1),
           f.schemas[now.schema := now.tables.Keys])
    else f.(conns := moved)
  }

  // ---- The invariant ----------------------------------------------------------------------

  function Version(view: View): int {
    MaxVersion(view, view.tables.Keys)
  }

  /** The snapshot a connection works on: that of its transaction, or the committed state. */
  function Base(f: File, conn: Conn): View {
    if conn.tx.Some? then conn.tx.value.base else f.committed
  }

  function Seen(conn: Conn): int {
    if conn.tx.Some? then conn.tx.value.dataVersion else conn.dataVersion
  }

  /** The statement covers the clock tables of some schema version between the stored one and the
      one in use. */
  ghost predicate StmtOk(ext: Ext, schemas: map<int, set<string>>, schema: int) {
    ext.pragmaSchemaVersion <= schema &&
    (ext.stmt.Some? ==>
      exists v :: ext.pragmaSchemaVersion <= v <= schema && v in schemas && ext.stmt.value == schemas[v])
  }

  /** What a transaction may have done: nothing before the version is cached other than creating
      empty clock tables, and afterwards entries above the version it began with. */
  ghost predicate TxOk(ext: Ext, tx: Tx) {
    (!tx.wrote ==> tx.now == tx.base) &&
    tx.now.schema >= tx.base.schema &&
    (tx.now.schema == tx.base.schema ==> tx.now.tables.Keys == tx.base.tables.Keys) &&
    (forall t | t in tx.base.tables :: t in tx.now.tables && tx.base.tables[t] <= tx.now.tables[t]) &&
    (forall t, v | t in tx.now.tables && v in tx.now.tables[t] ::
      (t in tx.base.tables && v in tx.base.tables[t]) ||
      (v > Version(tx.base) && Cached(ext, tx.dataVersion)))
  }

  ghost predicate ConnOk(f: File, conn: Conn) {
    StmtOk(conn.ext, f.schemas, Base(f, conn).schema) &&
    conn.ext.pragmaDataVersion <= Seen(conn) <= conn.dataVersion &&
    Base(f, conn).schema in f.schemas && f.schemas[Base(f, conn).schema] == Base(f, conn).tables.Keys &&
    Base(f, conn).schema <= f.committed.schema && Positive(Base(f, conn)) &&
    (Seen(conn) == conn.dataVersion ==> Base(f, conn) == f.committed) &&
    (Cached(conn.ext, Seen(conn)) ==> conn.ext.dbVersion == Version(Base(f, conn))) &&
    (conn.tx.Some? ==> TxOk(conn.ext, conn.tx.value)) &&
    (conn.tx.Some? && conn.tx.value.wrote ==> Seen(conn) == conn.dataVersion)
  }

  ghost predicate OneWriter(f: File) {
    forall c, d | c in f.conns && d in f.conns && c != d && f.conns[c].tx.Some? && f.conns[d].tx.Some? ::
      !(f.conns[c].tx.value.wrote && f.conns[d].tx.value.wrote)
  }

  ghost predicate Positive(view: View) {
    forall t, v | t in view.tables && v in view.tables[t] :: v > MIN_POSSIBLE_DB_VERSION
  }

  ghost predicate Inv(f: File) {
    Positive(f.committed) && f.committed.schema in f.schemas &&
    f.schemas[f.committed.schema] == f.committed.tables.Keys &&
    (forall c | c in f.conns :: ConnOk(f, f.conns[c])) && OneWriter(f) &&
    (forall v | v in f.schemas :: v <= f.committed.schema)
  }

  // ---- The answer -------------------------------------------------------------------------

  /** The statement, once prepared for the snapshot, covers exactly its clock tables. */
  lemma PreparedCovers(ext: Ext, schemas: map<int, set<string>>, view: View)
    requires StmtOk(ext, schemas, view.schema) && view.schema in schemas && schemas[view.schema] == view.tables.Keys
    ensures var ready := Prepared(ext, view);
      StmtOk(ready, schemas, view.schema) &&
      (if ready.stmt.Some? then ready.stmt.value == view.tables.Keys else view.tables == map[])
  {
  }

  /** A fetch on an unaltered snapshot gives its version. */
  lemma FetchCorrect(ext: Ext, schemas: map<int, set<string>>, view: View, dataVersion: int)
    requires StmtOk(ext, schemas, view.schema) && view.schema in schemas && schemas[view.schema] == view.tables.Keys
    requires Positive(view) && !Cached(ext, dataVersion)
    ensures Asked(ext, view, dataVersion).Ok?
    ensures var after := Asked(ext, view, dataVersion).value;
      after.dbVersion == Version(view) && Cached(after, dataVersion) && after.pragmaDataVersion == dataVersion &&
      StmtOk(after, schemas, view.schema)
  {
    var refreshed := ext.(pragmaDataVersion := dataVersion);
    assert StmtOk(refreshed, schemas, view.schema);
    PreparedCovers(refreshed, schemas, view);
  }

  /** A transaction that never had the version cached has written no entry. */
  lemma Untouched(ext: Ext, tx: Tx)
    requires TxOk(ext, tx) && !Cached(ext, tx.dataVersion) && tx.now.schema == tx.base.schema
    ensures tx.now == tx.base
  {
    forall t | t in tx.now.tables ensures tx.now.tables[t] == tx.base.tables[t] {
      assert forall v :: v in tx.now.tables[t] <==> v in tx.base.tables[t];
    }
    assert tx.now.tables == tx.base.tables;
  }

  /** Whenever a connection may ask, it gets the version its transaction began with. */
  lemma AnswerCorrect(f: File, c: int)
    requires Inv(f) && MayAsk(f, c)
    ensures Answer(f.conns[c]).Ok?
    ensures var conn, ext := f.conns[c], Answer(f.conns[c]).value;
      ext.dbVersion == Version(conn.tx.value.base) && Cached(ext, conn.tx.value.dataVersion) &&
      StmtOk(ext, f.schemas, conn.tx.value.base.schema) && ext.pragmaDataVersion == conn.tx.value.dataVersion
  {
    var conn := f.conns[c];
    var tx := conn.tx.value;
    assert ConnOk(f, conn);
    if !Cached(conn.ext, tx.dataVersion) {
      Untouched(conn.ext, tx);
      FetchCorrect(conn.ext, f.schemas, tx.base, tx.dataVersion);
    }
  }

  // ---- Every event keeps the invariant ----------------------------------------------------

  /** Replacing one connection by one that is in order, on the same file. */
  lemma OneMoved(f: File, c: int, conn: Conn)
    requires Inv(f) && c in f.conns && ConnOk(f, conn)
    requires conn.tx.Some? && conn.tx.value.wrote ==>
      forall d | d in f.conns && d != c && f.conns[d].tx.Some? :: !f.conns[d].tx.value.wrote
    ensures Inv(f.(conns := f.conns[c := conn]))
  {
    var after := f.(conns := f.conns[c := conn]);
    forall d | d in after.conns ensures ConnOk(after, after.conns[d]) {
      assert ConnOk(f, if d == c then conn else f.conns[d]);
    }
  }

  lemma BeginKeeps(f: File, c: int)
    requires Inv(f) && Enabled(f, Begin(c))
    ensures Inv(Do(f, Begin(c)))
  {
    assert ConnOk(f, f.conns[c]);
    OneMoved(f, c, Move(f, Begin(c)));
  }

  lemma AskKeeps(f: File, c: int)
    requires Inv(f) && Enabled(f, Ask(c))
    ensures Inv(Do(f, Ask(c)))
  {
    assert ConnOk(f, f.conns[c]);
    AnswerCorrect(f, c);
    OneMoved(f, c, Move(f, Ask(c)));
  }

  lemma WriteKeeps(f: File, c: int, table: string, remote: int)
    requires Inv(f) && Enabled(f, WriteEntry(c, table, remote))
    ensures Inv(Do(f, WriteEntry(c, table, remote)))
  {
    assert ConnOk(f, f.conns[c]);
    AnswerCorrect(f, c);
    OneMoved(f, c, Move(f, WriteEntry(c, table, remote)));
  }

  lemma CreateKeeps(f: File, c: int, table: string)
    requires Inv(f) && Enabled(f, CreateClockTable(c, table))
    ensures Inv(Do(f, CreateClockTable(c, table)))
  {
    assert ConnOk(f, f.conns[c]);
    OneMoved(f, c, Move(f, CreateClockTable(c, table)));
  }

  lemma RollbackKeeps(f: File, c: int)
    requires Inv(f) && Enabled(f, Rollback(c))
    ensures Inv(Do(f, Rollback(c)))
  {
    assert ConnOk(f, f.conns[c]);
    OneMoved(f, c, Move(f, Rollback(c)));
  }

  /** Schema versions only get added. */
  ghost predicate Extends(schemas: map<int, set<string>>, after: map<int, set<string>>) {
    forall v | v in schemas :: v in after && after[v] == schemas[v]
  }

  lemma StmtStays(ext: Ext, schemas: map<int, set<string>>, after: map<int, set<string>>, schema: int, schema2: int)
    requires StmtOk(ext, schemas, schema) && Extends(schemas, after) && schema <= schema2
    ensures StmtOk(ext, after, schema2)
  {
    if ext.stmt.Some? {
      var v :| ext.pragmaSchemaVersion <= v <= schema && v in schemas && ext.stmt.value == schemas[v];
      assert v in after;
    }
  }

  lemma CommitExtends(f: File, c: int)
    requires Inv(f) && Enabled(f, Commit(c)) && f.conns[c].tx.value.wrote
    ensures var after := Do(f, Commit(c));
      Extends(f.schemas, after.schemas) && f.committed.schema <= after.committed.schema &&
      Positive(after.committed) && after.committed.schema in after.schemas &&
      after.schemas[after.committed.schema] == after.committed.tables.Keys &&
      (forall v | v in after.schemas :: v <= after.committed.schema) &&
      f.conns[c].tx.value.base == f.committed
  {
    assert ConnOk(f, f.conns[c]);
    hide StmtOk;
    var tx := f.conns[c].tx.value;
    assert tx.base == f.committed;
    forall t, v | t in tx.now.tables && v in tx.now.tables[t] ensures v > MIN_POSSIBLE_DB_VERSION {
      assert IsMax(tx.base, tx.base.tables.Keys, Version(tx.base));
    }
  }

  lemma CommitterKept(f: File, c: int)
    requires Inv(f) && Enabled(f, Commit(c)) && f.conns[c].tx.value.wrote
    ensures var after := Do(f, Commit(c)); ConnOk(after, after.conns[c])
  {
    var conn, after := f.conns[c], Do(f, Commit(c));
    assert ConnOk(f, conn);
    CommitExtends(f, c);
    StmtStays(conn.ext, f.schemas, after.schemas, conn.tx.value.base.schema, after.committed.schema);
    assert StmtOk(conn.ext.(dbVersion := -1), after.schemas, after.committed.schema);
  }

  lemma OthersKept(f: File, c: int, d: int)
    requires Inv(f) && Enabled(f, Commit(c)) && f.conns[c].tx.value.wrote && d in f.conns && d != c
    ensures var after := Do(f, Commit(c)); ConnOk(after, after.conns[d])
  {
    var conn, after := f.conns[d], Do(f, Commit(c));
    assert ConnOk(f, conn);
    CommitExtends(f, c);
    assert after.conns[d] == conn.(dataVersion := conn.dataVersion + 1);
    StmtStays(conn.ext, f.schemas, after.schemas, Base(f, conn).schema, Base(after, after.conns[d]).schema);
    hide StmtOk, TxOk, Do;
  }

  lemma CommitKeeps(f: File, c: int)
    requires Inv(f) && Enabled(f, Commit(c))
    ensures Inv(Do(f, Commit(c)))
  {
    assert ConnOk(f, f.conns[c]);
    if f.conns[c].tx.value.wrote {
      CommitExtends(f, c);
      CommitterKept(f, c);
      var after := Do(f, Commit(c));
      forall d | d in after.conns ensures ConnOk(after, after.conns[d]) {
        if d != c { OthersKept(f, c, d); }
      }
    } else {
      OneMoved(f, c, Move(f, Commit(c)));
    }
  }

  lemma EventKeeps(f: File, e: Event)
    requires Inv(f) && Enabled(f, e)
    ensures Inv(Do(f, e))
  {
    match e
    case Begin(c) => BeginKeeps(f, c);
    case Ask(c) => AskKeeps(f, c);
    case WriteEntry(c, table, remote) => WriteKeeps(f, c, table, remote);
    case CreateClockTable(c, table) => CreateKeeps(f, c, table);
    case Commit(c) => CommitKeeps(f, c);
    case Rollback(c) => RollbackKeeps(f, c);
  }

  // ---- Runs -------------------------------------------------------------------------------

  /** Fresh connections to a file that may already hold clock tables. */
  ghost predicate Start(f: File) {
    Positive(f.committed) && f.schemas == map[f.committed.schema := f.committed.tables.Keys] &&
    f.committed.schema >= 0 &&
    forall c | c in f.conns :: f.conns[c].tx == None && f.conns[c].ext == Ext(-1, -1, f.conns[c].dataVersion, None)
  }

  ghost predicate LegalRun(f: File, events: seq<Event>)
    decreases |events|, 0
  {
    events == [] ||
    (var n := |events| - 1;
     LegalRun(f, events[..n]) && Enabled(Run(f, events[..n]), events[n]))
  }

  ghost function Run(f: File, events: seq<Event>): File
    requires LegalRun(f, events)
    decreases |events|, 1
  {
    if events == [] then f else
      var n := |events| - 1;
      Do(Run(f, events[..n]), events[n])
  }

  lemma {:induction false} RunKeeps(f: File, events: seq<Event>)
    requires Start(f) && LegalRun(f, events)
    ensures Inv(Run(f, events))
  {
    if events != [] {
      var n := |events| - 1;
      hide Inv, Do, Enabled, Start;
      RunKeeps(f, events[..n]);
      EventKeeps(Run(f, events[..n]), events[n]);
    }
  }

  /** However the transactions of all connections interleave: a connection that may ask for the
      version gets, without an error, the largest db_version of all clock tables as of the start of
      its transaction. */
  lemma CacheAgrees(f: File, events: seq<Event>, c: int)
    requires Start(f) && LegalRun(f, events) && MayAsk(Run(f, events), c)
    ensures var conn := Run(f, events).conns[c];
      Answer(conn).Ok? && IsMax(conn.tx.value.base, conn.tx.value.base.tables.Keys, Answer(conn).value.dbVersion)
  {
    RunKeeps(f, events);
    AnswerCorrect(Run(f, events), c);
  }

  /** For a file without entries that is 0. */
  lemma EmptyFileZero(f: File, events: seq<Event>, c: int)
    requires Start(f) && LegalRun(f, events) && MayAsk(Run(f, events), c)
    requires forall t | t in Run(f, events).conns[c].tx.value.base.tables ::
      Run(f, events).conns[c].tx.value.base.tables[t] == {}
    ensures Answer(Run(f, events).conns[c]).Ok? && Answer(Run(f, events).conns[c]).value.dbVersion == 0
  {
    hide Run, LegalRun, Start;
    CacheAgrees(f, events, c);
  }

  /** The snapshot of a transaction stays until it ends. */
  lemma BaseStays(f: File, e: Event, c: int)
    requires Enabled(f, e) && c in f.conns && f.conns[c].tx.Some?
    requires e.c == c ==> !e.Commit? && !e.Rollback?
    ensures c in Do(f, e).conns && Do(f, e).conns[c].tx.Some?
    ensures Do(f, e).conns[c].tx.value.base == f.conns[c].tx.value.base
  {
  }

  lemma {:induction false} BaseStaysRun(f: File, events: seq<Event>, more: seq<Event>, c: int)
    requires LegalRun(f, events + more) && forall e | e in more :: e.c == c ==> !e.Commit? && !e.Rollback?
    ensures LegalRun(f, events)
    ensures var before, after := Run(f, events), Run(f, events + more);
      c in before.conns && before.conns[c].tx.Some? ==>
        c in after.conns && after.conns[c].tx.Some? && after.conns[c].tx.value.base == before.conns[c].tx.value.base
  {
    hide Do, Enabled;
    if more == [] {
      assert events + more == events;
    } else {
      var n := |more| - 1;
      assert (events + more)[..|events + more| - 1] == events + more[..n];
      BaseStaysRun(f, events, more[..n], c);
      var before := Run(f, events + more[..n]);
      if c in before.conns && before.conns[c].tx.Some? { BaseStays(before, more[n], c); }
    }
  }

  /** And the same at every call in the transaction, whatever any connection does in between. */
  lemma SameAnswer(f: File, events: seq<Event>, more: seq<Event>, c: int)
    requires Start(f) && LegalRun(f, events) && LegalRun(f, events + more)
    requires forall e | e in more :: e.c == c ==> !e.Commit? && !e.Rollback?
    requires MayAsk(Run(f, events), c) && MayAsk(Run(f, events + more), c)
    ensures var first, later := Answer(Run(f, events).conns[c]), Answer(Run(f, events + more).conns[c]);
      first.Ok? && later.Ok? && later.value.dbVersion == first.value.dbVersion
  {
    hide Run, LegalRun, Start, Inv;
    RunKeeps(f, events);
    RunKeeps(f, events + more);
    AnswerCorrect(Run(f, events), c);
    AnswerCorrect(Run(f, events + more), c);
    BaseStaysRun(f, events, more, c);
  }

  /** Every entry written gets a db_version right above everything committed, or the remote version it
      came from when that is larger; nothing else changes. */
  lemma WrittenAbove(f: File, c: int, table: string, remote: int)
    requires Inv(f) && Enabled(f, WriteEntry(c, table, remote))
    ensures var next := Version(f.committed) + 1;
      var written := if remote > next then remote else next;
      var before, after := f.conns[c].tx.value.now, Do(f, WriteEntry(c, table, remote)).conns[c].tx.value.now;
      after.tables == before.tables[table := before.tables[table] + {written}] && after.schema == before.schema &&
      forall t, v | t in f.committed.tables && v in f.committed.tables[t] :: v < written
  {
    AnswerCorrect(f, c);
    assert ConnOk(f, f.conns[c]);
    assert f.conns[c].tx.value.base == f.committed;
    AllBelow(f.committed);
  }

  lemma AllBelow(view: View)
    ensures forall t, v | t in view.tables && v in view.tables[t] :: v <= Version(view)
  {
    forall t, v | t in view.tables && v in view.tables[t] ensures v <= Version(view) {
      assert HasVersion(view, view.tables.Keys, v);
    }
  }

  /** So a commit keeps every committed entry, and all it adds lies above all of them. */
  lemma CommitAbove(f: File, c: int)
    requires Inv(f) && Enabled(f, Commit(c))
    ensures var before, after := f.committed, Do(f, Commit(c)).committed;
      (forall t | t in before.tables :: t in after.tables && before.tables[t] <= after.tables[t]) &&
      forall t, v | t in after.tables && v in after.tables[t] && !(t in before.tables && v in before.tables[t]) ::
        forall u, w | u in before.tables && w in before.tables[u] :: w < v
  {
    assert ConnOk(f, f.conns[c]);
    hide StmtOk;
    AllBelow(f.committed);
  }

  /** After a rollback, and after a commit that wrote, the connection has nothing cached, so that its next
      transaction fetches the version; nobody else's cache is touched. */
  lemma EndedFetches(f: File, e: Event, c: int, dataVersion: int)
    requires Enabled(f, e) && e.c == c && (e.Rollback? || (e.Commit? && f.conns[c].tx.value.wrote))
    ensures var after := Do(f, e);
      c in after.conns && after.conns[c].tx.None? && !Cached(after.conns[c].ext, dataVersion) &&
      (forall d | d in f.conns && d != c :: d in after.conns && after.conns[d].ext == f.conns[d].ext) &&
      (e.Rollback? ==> after.committed == f.committed)
  {
  }

  // ---- Where it stops ---------------------------------------------------------------------

  /** A connection that fetches the version after changing the schema and then rolls back: its
      next fetch works exactly when its first one had no statement yet and had never stored the
      schema version in use. Otherwise it steps a statement over a table that is gone. */
  lemma AlteredFetchRollbackIff(ext: Ext, view: View, table: string, dataVersion: int)
    requires ext.pragmaSchemaVersion <= view.schema && !Cached(ext, dataVersion) && table !in view.tables
    ensures var altered := View(view.tables[table := {}], view.schema + 1);
      var asked := Asked(ext, altered, dataVersion);
      asked.Ok? &&
      (Asked(Ended(asked.value), view, dataVersion).Ok? <==>
       ext.stmt.None? && ext.pragmaSchemaVersion < view.schema)
  {
    assert table in View(view.tables[table := {}], view.schema + 1).tables.Keys;
  }
}
