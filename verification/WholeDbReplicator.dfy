/** The handlers with which one peer keeps up with the others: poke, request, push. All of them use
    one connection and wait after every statement, so any of them can run while a transaction of
    another one is open. */
module WholeDbReplicator {
  import opened Wrappers
  import opened Crdt
  import opened Merging
  import opened Replica
  import opened Domination
  import opened Replication
  import opened Transactions
  import opened ChangesCursor

  /** A push in the course of `changesReceived`: how many of its changes are merged, and the largest
      version among those. */
  datatype Receiving = Receiving(source: Site, changes: seq<Change>, merged: nat, maxVersion: int)

  class WholeDbReplicator {
    const siteId: Site
    const db: Replica
    /** `__crsql_wdbreplicator_peers`: the version recorded for each peer. */
    var peers: map<Site, int>
    var pendingNotification: bool
    /** Whether a transaction is open on the connection, and the push that it takes in. */
    var open: bool
    var receiving: Option<Receiving>

    /** Between two statements. */
    ghost predicate Valid()
      reads this, db
    {
      db.Valid() && (!open ==> db.began == DbVersion(db.clock) && receiving == None) &&
      (receiving.Some? ==>
        var r := receiving.value; r.merged <= |r.changes| && r.maxVersion == MaxVersion(r.changes[..r.merged]))
    }

    constructor (siteId: Site, schema: map<string, seq<Cid>>)
      requires forall t | t in schema :: TableColumns(schema[t])
      ensures Valid() && fresh(db) && this.siteId == siteId && db.Abs() == EMPTY
      ensures peers == map[] && !pendingNotification && !open
    {
      this.siteId := siteId;
      db := new Replica(schema);
      peers, pendingNotification, open, receiving := map[], false, false, None;
    }

    /** `crrChanged`: however many changes are made before the notification runs, it runs once. */
    method CrrChanged() returns (scheduled: bool)
      modifies this`pendingNotification
      ensures pendingNotification && scheduled == !old(pendingNotification)
    {
      if pendingNotification { return false; }
      pendingNotification := true;
      return true;
    }

    /** The scheduled notification: the version to poke the other peers with. Inside a transaction
        that is the version at its beginning. */
    method Notify() returns (version: int)
      requires Valid()
      modifies this`pendingNotification, db`dbVersion
      ensures Valid() && !pendingNotification && version == db.began
      ensures !open ==> version == DbVersion(db.clock)
    {
      var next := db.NextDbVersion();
      pendingNotification := false;
      version := next - 1;
    }

    /** `poked`: whether to request changes, and since which version. */
    method Poked(poker: Site, pokerVersion: int) returns (since: Option<int>)
      ensures var ours := if poker in peers then peers[poker] else 0;
        since == if pokerVersion <= ours then None else Some(ours)
    {
      var ourVersionForPoker := 0;
      if poker in peers { ourVersionForPoker := peers[poker]; }
      if pokerVersion <= ourVersionForPoker { return None; }
      return Some(ourVersionForPoker);
    }

    /** `newConnection`: INSERT OR IGNORE, so a version that is already recorded stays. */
    method NewConnection(peer: Site) returns (scheduled: bool)
      modifies this
      ensures peers == if peer in old(peers) then old(peers) else old(peers)[peer := 0]
      ensures pendingNotification && scheduled == !old(pendingNotification)
    {
      if peer !in peers { peers := peers[peer := 0]; }
      scheduled := CrrChanged();
    }

    /** BEGIN, of a transaction of the application. */
    method Begin()
      requires Valid() && !open
      modifies this`open
      ensures Valid() && open && receiving == None
    {
      open := true;
    }

    /** COMMIT */
    method Commit()
      requires Valid() && open && receiving == None
      modifies this`open, db`dbVersion, db`began
      ensures Valid() && !open
    {
      db.Commit();
      open := false;
    }

    /** `changesReceived` up to its first change. */
    method BeginReceive(source: Site, changes: seq<Change>)
      requires Valid() && !open
      modifies this`open, this`receiving
      ensures Valid() && open && receiving == Some(Receiving(source, changes, 0, 0))
    {
      Begin();
      NothingYet(db.Abs(), db.began + 1);
      assert changes[..0] == [];
      receiving := Some(Receiving(source, changes, 0, 0));
    }

    /** The next `stmt.run` of `changesReceived`: whatever the connection did since the last one, the
        change is merged with the next version of the transaction. */
    method ReceiveNext()
      requires Valid() && open && receiving.Some? && receiving.value.merged < |receiving.value.changes|
      modifies this`receiving, db
      ensures Valid() && open && db.began == old(db.began)
      ensures var r := old(receiving).value;
        Merge(old(db.Abs()), r.changes[r.merged], db.began + 1) == Ok(db.Abs()) &&
        receiving == Some(Receiving(r.source, r.changes, r.merged + 1, MaxVersion(r.changes[..r.merged + 1])))
    {
      hide Merge, MergeAll, MaxVersion, RowsPresent, TableColumns;
      var r := receiving.value;
      var version := r.changes[r.merged].dbVersion;
      OneVersionMore(r.changes, r.merged);
      var _ := db.MergeInsert(r.changes[r.merged]);
      var maxVersion := if version > r.maxVersion then version else r.maxVersion;
      receiving := Some(Receiving(r.source, r.changes, r.merged + 1, maxVersion));
    }

    /** The INSERT OR REPLACE that ends the callback of `changesReceived`, even when a larger version
        was recorded before. */
    method RecordReceived()
      requires Valid() && open && receiving.Some? && receiving.value.merged == |receiving.value.changes|
      modifies this`peers, this`receiving
      ensures Valid() && open && receiving == None
      ensures var r := old(receiving).value; peers == old(peers)[r.source := MaxVersion(r.changes)]
    {
      var r := receiving.value;
      assert r.changes[..r.merged] == r.changes;
      peers := peers[r.source := r.maxVersion];
      receiving := None;
    }

    /** `changesReceived` when nothing comes in between: everything is merged, and the largest version
        of this message is recorded. */
    method ChangesReceived(source: Site, changes: seq<Change>)
      requires Valid() && !open
      modifies this, db
      ensures Valid() && !open && pendingNotification == old(pendingNotification)
      ensures MergeAll(old(db.Abs()), changes, DbVersion(old(db.clock)) + 1) == Ok(db.Abs())
      ensures peers == old(peers)[source := MaxVersion(changes)]
    {
      hide Merge, MergeAll, MaxVersion, RowsPresent, TableColumns;
      NothingYet(old(db.Abs()), db.began + 1);
      BeginReceive(source, changes);
      assert changes[..0] == [];
      for i := 0 to |changes|
        invariant Valid() && open && db.began == DbVersion(old(db.clock))
        invariant pendingNotification == old(pendingNotification) && peers == old(peers)
        invariant receiving == Some(Receiving(source, changes, i, MaxVersion(changes[..i])))
        invariant MergeAll(old(db.Abs()), changes[..i], db.began + 1) == Ok(db.Abs())
      {
        OneChangeMore(old(db.Abs()), changes, i, db.began + 1);
        ReceiveNext();
      }
      assert changes[..|changes|] == changes;
      RecordReceived();
      Commit();
    }

    /** `changesRequested`: everything newer that does not carry the requestor's site id, with what an
        open transaction wrote so far; nothing is sent when there is nothing. */
    method ChangesRequested(source: Site, since: int) returns (push: Option<seq<Change>>)
      requires Valid()
      ensures var all := ReadSet(db.Abs(), siteId, since, Some(source));
        if all == {} then push == None
        else push.Some? && (set ch | ch in push.value) == all
    {
      var changes := ReadChanges(Db(db.rows, db.clock), siteId, since, Some(source));
      ghost var all := ReadSet(db.Abs(), siteId, since, Some(source));
      assert forall ch :: ch in all <==> ch in changes;
      if |changes| == 0 {
        assert all == {};
        return None;
      }
      assert changes[0] in all;
      return Some(changes);
    }
  }

  lemma NothingYet(db: Db, next: int)
    ensures MergeAll(db, [], next) == Ok(db) && MaxVersion([]) == 0
  {
  }

  lemma OneChangeMore(db: Db, changes: seq<Change>, i: nat, next: int)
    requires i < |changes| && MergeAll(db, changes[..i], next).Ok?
    ensures MergeAll(db, changes[..i + 1], next) == Merge(MergeAll(db, changes[..i], next).value, changes[i], next)
  {
    assert changes[..i + 1][..i] == changes[..i];
  }

  lemma OneVersionMore(changes: seq<Change>, i: nat)
    requires i < |changes|
    ensures MaxVersion(changes[..i + 1]) == Max(MaxVersion(changes[..i]), changes[i].dbVersion)
  {
    assert changes[..i + 1][..i] == changes[..i];
  }

  /** The version a notification carries that runs inside the transaction, or after it. */
  function NotifiedVersion(base: Db, db: Db, committed: bool): int {
    DbVersion(if committed then db.clock else base.clock)
  }

  /** A peer that is up to date with the beginning of a transaction asks, when it is notified of the
      transaction, if and only if the notification ran after the commit and there is something new. */
  lemma NotifiedPeerAsksIff(base: Db, db: Db, committed: bool)
    requires Sound(base) && Opened(base, db)
    ensures NotifiedVersion(base, db, committed) > DbVersion(base.clock) <==> committed && db.clock != base.clock
  {
    hide Sound, Tomb, Le;
    OpenedFollows(base, db);
    if db.clock != base.clock {
      var cell :| cell in db.clock && (cell !in base.clock || db.clock[cell] != base.clock[cell]);
      assert db.clock[cell].dbVersion > DbVersion(base.clock);
    }
  }
}
