/** The cached database version of one connection: which pragmas it checks, when it prepares its
    statement again, and what it returns. */
module ExtData {
  import opened Wrappers
  import opened Crdt

  /** What a connection sees: the db_versions in each clock table, and the schema version. */
  datatype View = View(tables: map<string, set<int>>, schema: int)

  /** The fields of `crsql_ExtData` that the cache uses; the statement is the set of clock tables
      it takes the maximum over. */
  datatype Ext = Ext(dbVersion: int, pragmaSchemaVersion: int, pragmaDataVersion: int, stmt: Option<set<string>>)

  const MIN_POSSIBLE_DB_VERSION := 0

  ghost predicate HasVersion(view: View, names: set<string>, v: int) {
    exists t :: t in names && t in view.tables && v in view.tables[t]
  }

  /** The largest version in some clock tables, or the least possible one when there is none. */
  ghost predicate IsMax(view: View, names: set<string>, v: int) {
    (forall w | HasVersion(view, names, w) :: w <= v) &&
    (HasVersion(view, names, v) || (v == MIN_POSSIBLE_DB_VERSION && forall w :: !HasVersion(view, names, w)))
  }

  function Versions(view: View, names: set<string>): set<(string, int)> {
    set t, v | t in names && t in view.tables && v in view.tables[t] :: (t, v)
  }

  function Numbers(entries: set<(string, int)>): set<int> {
    set e | e in entries :: e.1
  }

  /** What the union query over the tables returns. */
  function MaxVersion(view: View, names: set<string>): (m: int)
    ensures IsMax(view, names, m)
  {
    VersionsComplete(view, names);
    var entries := Versions(view, names);
    if entries == {} then MIN_POSSIBLE_DB_VERSION else
      var entry :| entry in entries;
      var all := Numbers(entries);
      assert (forall e | e in entries :: e.1 in all) && forall w | w in all :: exists e :: e in entries && e.1 == w;
      MaxExists(all, entry.1);
      var m :| m in all && forall w | w in all :: w <= m;
      m
  }

  lemma VersionsComplete(view: View, names: set<string>)
    ensures var entries := Versions(view, names);
      (forall w | HasVersion(view, names, w) :: w in Numbers(entries) && entries != {}) &&
      (forall e | e in entries :: HasVersion(view, names, e.1))
  {
    var entries := Versions(view, names);
    forall w | HasVersion(view, names, w) ensures w in Numbers(entries) && entries != {} {
      var t :| t in names && t in view.tables && w in view.tables[t];
      assert (t, w) in entries;
    }
  }

  /** Without any entry the version is 0, and with entries none but theirs. */
  lemma NoEntriesZero(view: View, names: set<string>)
    ensures (forall v :: !HasVersion(view, names, v)) ==> MaxVersion(view, names) == 0
    ensures (exists v :: HasVersion(view, names, v)) ==> HasVersion(view, names, MaxVersion(view, names))
  {
  }

  // ---- What a call does to the fields -----------------------------------------------------

  /** Whether a call returns what is cached. */
  predicate Cached(ext: Ext, dataVersion: int) {
    ext.dbVersion != -1 && ext.pragmaDataVersion == dataVersion
  }

  /** The fields after the schema check: the statement covers the tables of the view, or what it
      covered before when the schema does not look newer. */
  function Prepared(ext: Ext, view: View): Ext {
    if ext.stmt.Some? && view.schema <= ext.pragmaSchemaVersion then ext
    else ext.(stmt := if view.tables == map[] then None else Some(view.tables.Keys),
              pragmaSchemaVersion := if ext.stmt.Some? then view.schema else ext.pragmaSchemaVersion)
  }

  /** A statement is prepared again exactly when there is none or the schema looks newer; then there is
      one exactly when there are clock tables, and it covers all of them. */
  lemma PreparedIff(ext: Ext, view: View)
    ensures var ready := Prepared(ext, view);
      if ext.stmt.Some? && view.schema <= ext.pragmaSchemaVersion then ready == ext
      else
        (ready.stmt.None? <==> view.tables == map[]) && (ready.stmt.Some? ==> ready.stmt.value == view.tables.Keys) &&
        ready.pragmaSchemaVersion == (if ext.stmt.Some? then view.schema else ext.pragmaSchemaVersion) &&
        ready.dbVersion == ext.dbVersion && ready.pragmaDataVersion == ext.pragmaDataVersion
  {
  }

  /** The fields after `crsql_getDbVersion`; stepping a statement over a table that is gone fails. */
  function Asked(ext: Ext, view: View, dataVersion: int): Outcome<Ext> {
    if Cached(ext, dataVersion) then Ok(ext)
    else
      var ready := Prepared(ext.(pragmaDataVersion := dataVersion), view);
      if ready.stmt.None? then Ok(ready.(dbVersion := MIN_POSSIBLE_DB_VERSION))
      else if ready.stmt.value <= view.tables.Keys then Ok(ready.(dbVersion := MaxVersion(view, ready.stmt.value)))
      else Err("no such table")
  }

  /** The fields after a commit that wrote or a rollback. */
  function Ended(ext: Ext): Ext {
    ext.(dbVersion := -1)
  }

  class ExtData {
    var dbVersion: int
    var pragmaSchemaVersion: int
    var pragmaDataVersion: int
    var stmt: Option<set<string>>

    function Abs(): Ext
      reads this
    {
      Ext(dbVersion, pragmaSchemaVersion, pragmaDataVersion, stmt)
    }

    constructor (dataVersion: int)
      ensures Abs() == Ext(-1, -1, dataVersion, None)
    {
      dbVersion, pragmaSchemaVersion, stmt := -1, -1, None;
      pragmaDataVersion := dataVersion;
    }

    /** `crsql_fetchPragmaSchemaVersion` */
    method FetchPragmaSchemaVersion(view: View) returns (changed: bool)
      modifies this`pragmaSchemaVersion
      ensures changed == (view.schema > old(pragmaSchemaVersion))
      ensures pragmaSchemaVersion == if changed then view.schema else old(pragmaSchemaVersion)
    {
      changed := view.schema > pragmaSchemaVersion;
      if changed { pragmaSchemaVersion := view.schema; }
    }

    /** `crsql_fetchPragmaDataVersion` */
    method FetchPragmaDataVersion(dataVersion: int) returns (changed: bool)
      modifies this`pragmaDataVersion
      ensures pragmaDataVersion == dataVersion && changed == (dataVersion != old(pragmaDataVersion))
    {
      changed := dataVersion != pragmaDataVersion;
      if changed { pragmaDataVersion := dataVersion; }
    }

    /** `crsql_recreateDbVersionStmt`: no statement when there are no clock tables. */
    method RecreateDbVersionStmt(view: View)
      modifies this`stmt
      ensures stmt == if view.tables == map[] then None else Some(view.tables.Keys)
    {
      stmt := None;
      if view.tables != map[] { stmt := Some(view.tables.Keys); }
    }

    /** `crsql_fetchDbVersionFromStorage` */
    method FetchDbVersionFromStorage(view: View) returns (r: Outcome<()>)
      modifies this
      ensures var ready := Prepared(old(Abs()), view);
        if ready.stmt.None? then r == Ok(()) && Abs() == ready.(dbVersion := MIN_POSSIBLE_DB_VERSION)
        else if ready.stmt.value <= view.tables.Keys then
          r == Ok(()) && Abs() == ready.(dbVersion := MaxVersion(view, ready.stmt.value))
        else r == Err("no such table") && Abs() == ready
    {
      var schemaChanged := true;
      if stmt.Some? { schemaChanged := FetchPragmaSchemaVersion(view); }
      if schemaChanged {
        RecreateDbVersionStmt(view);
        if stmt.None? {
          dbVersion := MIN_POSSIBLE_DB_VERSION;
          return Ok(());
        }
      }
      if !(stmt.value <= view.tables.Keys) { return Err("no such table"); }
      dbVersion := MaxVersion(view, stmt.value);
      return Ok(());
    }

    /** `crsql_getDbVersion` */
    method GetDbVersion(view: View, dataVersion: int) returns (r: Outcome<()>)
      modifies this
      ensures match Asked(old(Abs()), view, dataVersion)
              case Ok(after) => r == Ok(()) && Abs() == after
              case Err(m) => r == Err(m)
              case Panic => false
    {
      var changed := FetchPragmaDataVersion(dataVersion);
      if dbVersion != -1 && !changed { return Ok(()); }
      r := FetchDbVersionFromStorage(view);
    }

    /** `nextDbVersionFunc` */
    method NextDbVersion(view: View, dataVersion: int) returns (r: Outcome<int>)
      modifies this
      ensures match Asked(old(Abs()), view, dataVersion)
              case Ok(after) => r == Ok(after.dbVersion + 1) && Abs() == after
              case Err(m) => r == Err(m)
              case Panic => false
    {
      var got := GetDbVersion(view, dataVersion);
      if got.IsFailure() { return got.PropagateFailure(); }
      return Ok(dbVersion + 1);
    }

    /** `commitHook` and `rollbackHook` */
    method TransactionEnded()
      modifies this`dbVersion
      ensures Abs() == Ended(old(Abs())) && dbVersion == -1
    {
      dbVersion := -1;
    }
  }
}
