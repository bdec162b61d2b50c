/** The sync server's sender, its receiver, and the client's receiver, as objects. */
module ChangeStream {
  import opened Wrappers
  import opened Crdt
  import opened Merging
  import opened Replica
  import opened ChangesCursor
  import opened Streaming

  class ChangeStream {
    const db: Replica
    const self: Site
    /** The client the stream sends to. */
    const site: Site
    const maxOutstandingAcks: int

    var begun: bool
    var closed: bool
    var outstandingAcks: int
    var blockedSend: bool
    var lastSeq: Seq
    /** What went out on the connection. */
    var sent: seq<Message>
    /** Whether the connection was asked to close for too many acks. */
    var tooManyAcks: bool

    function Abs(): Stream
      reads this
    {
      Stream(begun, closed, outstandingAcks, blockedSend, lastSeq)
    }

    constructor (db: Replica, self: Site, site: Site, maxOutstandingAcks: int)
      ensures Abs() == UNBEGUN && sent == [] && !tooManyAcks
      ensures this.db == db && this.self == self && this.site == site && this.maxOutstandingAcks == maxOutstandingAcks
    {
      this.db, this.self, this.site, this.maxOutstandingAcks := db, self, site, maxOutstandingAcks;
      begun, closed, outstandingAcks, blockedSend, lastSeq := false, false, 0, false, Seq(0, 0);
      sent, tooManyAcks := [], false;
    }

    /** The fields are those of a step, and its message, if any, went out. */
    ghost predicate Became(step: (Stream, Option<Message>), before: seq<Message>)
      reads this
    {
      Abs() == step.0 && sent == before + (if step.1.Some? then [step.1.value] else [])
    }

    /** `#dbChanged` */
    method DbChanged(source: Option<Site>)
      requires begun
      modifies this
      ensures tooManyAcks == old(tooManyAcks)
      ensures exists pulled ::
        ((Sends(old(Abs()), maxOutstandingAcks, site, source) ==> Pulls(db.Abs(), self, old(lastSeq), site, pulled)) &&
         Became(Streaming.DbChanged(old(Abs()), maxOutstandingAcks, site, source, pulled), old(sent)))
    {
      if closed || source == Some(site) {
        assert Became(Streaming.DbChanged(old(Abs()), maxOutstandingAcks, site, source, []), old(sent));
        return;
      }
      if outstandingAcks == maxOutstandingAcks {
        blockedSend := true;
        assert Became(Streaming.DbChanged(old(Abs()), maxOutstandingAcks, site, source, []), old(sent));
        return;
      }
      blockedSend := false;
      var startSeq := lastSeq;
      var changes := ReadChanges(Db(db.rows, db.clock), self, startSeq.version, Some(site));
      assert Pulls(db.Abs(), self, old(lastSeq), site, changes);
      if |changes| == 0 {
        assert Became(Streaming.DbChanged(old(Abs()), maxOutstandingAcks, site, source, changes), old(sent));
        return;
      }
      var seqEnd := Seq(changes[|changes| - 1].dbVersion, 0);
      lastSeq := seqEnd;
      outstandingAcks := outstandingAcks + 1;
      sent := sent + [Message(changes, startSeq, seqEnd)];
      assert Became(Streaming.DbChanged(old(Abs()), maxOutstandingAcks, site, source, changes), old(sent));
    }

    /** `begin`: a stream begins once. */
    method Begin(seqStart: Seq) returns (r: Outcome<()>)
      modifies this
      ensures tooManyAcks == old(tooManyAcks)
      ensures old(begun) ==> r == Err("INVALID_MSG_STATE") && Abs() == old(Abs()) && sent == old(sent)
      ensures !old(begun) ==> r == Ok(()) && exists pulled ::
        ((Sends(old(Abs()), maxOutstandingAcks, site, None) ==> Pulls(db.Abs(), self, seqStart, site, pulled)) &&
         Became(Streaming.Begin(old(Abs()), maxOutstandingAcks, site, seqStart, pulled), old(sent)))
    {
      if begun { return Err("INVALID_MSG_STATE"); }
      begun := true;
      lastSeq := seqStart;
      label Begun:
      DbChanged(None);
      ghost var pulled :|
        (Sends(old@Begun(Abs()), maxOutstandingAcks, site, None) ==> Pulls(db.Abs(), self, seqStart, site, pulled)) &&
        Became(Streaming.DbChanged(old@Begun(Abs()), maxOutstandingAcks, site, None, pulled), old(sent));
      assert Became(Streaming.Begin(old(Abs()), maxOutstandingAcks, site, seqStart, pulled), old(sent));
      return Ok(());
    }

    /** `processAck`: asks for the connection to be closed when there is nothing to acknowledge. */
    method ProcessAck()
      requires begun
      modifies this
      ensures tooManyAcks == (old(tooManyAcks) || old(outstandingAcks) <= 0)
      ensures exists pulled ::
        ((Unblocks(old(Abs()), maxOutstandingAcks) && !closed ==> Pulls(db.Abs(), self, old(lastSeq), site, pulled)) &&
         Became(Streaming.ProcessAck(old(Abs()), maxOutstandingAcks, site, pulled), old(sent)))
    {
      outstandingAcks := outstandingAcks - 1;
      if outstandingAcks < 0 { tooManyAcks := true; }
      if outstandingAcks == maxOutstandingAcks - 1 && blockedSend {
        label Acked:
        DbChanged(None);
        ghost var pulled :|
          (Sends(old@Acked(Abs()), maxOutstandingAcks, site, None) ==>
            Pulls(db.Abs(), self, old(lastSeq), site, pulled)) &&
          Became(Streaming.DbChanged(old@Acked(Abs()), maxOutstandingAcks, site, None, pulled), old(sent));
        assert Became(Streaming.ProcessAck(old(Abs()), maxOutstandingAcks, site, pulled), old(sent));
      } else {
        assert Became(Streaming.ProcessAck(old(Abs()), maxOutstandingAcks, site, []), old(sent));
      }
    }

    /** `#connClosed` */
    method ConnClosed()
      modifies this`closed
      ensures Abs() == old(Abs()).(closed := true)
    {
      closed := true;
    }
  }

  class EstablishedConnection {
    const db: Replica
    const siteStr: Site
    var expectedSeq: Option<Seq>
    var acked: seq<Seq>
    /** The notifications queued for the listeners of the database. */
    var notifications: seq<Site>
    var changeStream: ChangeStream?
    /** The messages that arrived, and those of them that it took. */
    ghost var arrived: seq<Message>
    ghost var taken: seq<Message>

    constructor (db: Replica, site: Site)
      requires db.Valid() && db.began == DbVersion(db.clock)
      ensures this.db == db && siteStr == site && acked == [] && notifications == []
      ensures Valid() && arrived == [] && changeStream == null
    {
      this.db, siteStr, expectedSeq, acked, notifications := db, site, None, [], [];
      arrived, taken, changeStream := [], [], null;
    }

    /** Between two transactions: what was taken of what arrived, and what is expected is the end of
        the last message taken. */
    ghost predicate Valid()
      reads this, db
    {
      db.Valid() && db.began == DbVersion(db.clock) && taken == Taken(arrived) &&
      expectedSeq == if taken == [] then None else Some(taken[|taken| - 1].seqEnd)
    }

    /** `#applyChanges`: refuses a gap; anything that starts earlier is applied, even again. */
    method ApplyChanges(m: Message) returns (r: Outcome<()>)
      requires Valid()
      modifies this, db
      ensures Valid() && arrived == old(arrived) + [m]
      ensures old(expectedSeq).Some? && OutOfOrder(old(expectedSeq).value, m.seqStart) ==>
        r == Err("OUT_OF_ORDER_DELIVERY") && db.Abs() == old(db.Abs()) && taken == old(taken) &&
        expectedSeq == old(expectedSeq) && acked == old(acked) && notifications == old(notifications)
      ensures !(old(expectedSeq).Some? && OutOfOrder(old(expectedSeq).value, m.seqStart)) ==>
        r == Ok(()) && ApplyChangeset(old(db.Abs()), m.changes, siteStr) == Ok(db.Abs()) && taken == old(taken) + [m] &&
        expectedSeq == Some(m.seqEnd) && acked == old(acked) + [m.seqEnd] &&
        notifications == old(notifications) + [siteStr]
    {
      hide RowsPresent, TableColumns, MergeAll, Signed, Taken;
      TakenOneMore(arrived, m);
      arrived := arrived + [m];
      if expectedSeq.Some? {
        var start, expected := m.seqStart, expectedSeq.value;
        if start.version > expected.version || (start.version > expected.version && start.minor != expected.minor) {
          return Err("OUT_OF_ORDER_DELIVERY");
        }
      }
      var signed := Sign(m.changes, siteStr);
      db.ApplyChanges(signed);
      db.Commit();
      notifications := notifications + [siteStr];
      expectedSeq := Some(m.seqEnd);
      acked := acked + [m.seqEnd];
      taken := taken + [m];
      return Ok(());
    }

    /** `#changesRequested`: a connection has one stream, which begins where the client asks. */
    method ChangesRequested(self: Site, seqStart: Seq) returns (r: Outcome<()>)
      modifies this`changeStream
      ensures old(changeStream) != null ==> r == Err("INVALID_MSG_STATE") && changeStream == old(changeStream)
      ensures old(changeStream) == null ==>
        r == Ok(()) && changeStream != null && fresh(changeStream) &&
        changeStream.db == db && changeStream.self == self && changeStream.site == siteStr &&
        changeStream.maxOutstandingAcks == DEFAULT_MAX_OUTSTANDING_ACKS == 5 && exists pulled ::
        (Pulls(db.Abs(), self, seqStart, siteStr, pulled) &&
         changeStream.Became(Streaming.Begin(UNBEGUN, DEFAULT_MAX_OUTSTANDING_ACKS, siteStr, seqStart, pulled), []))
    {
      if changeStream != null { return Err("INVALID_MSG_STATE"); }
      var stream := new ChangeStream(db, self, siteStr, DEFAULT_MAX_OUTSTANDING_ACKS);
      changeStream := stream;
      r := stream.Begin(seqStart);
    }
  }

  /** Binds the site of the connection for every change. */
  method Sign(changes: seq<Change>, site: Site) returns (signed: seq<Change>)
    ensures signed == Signed(changes, site)
  {
    signed := [];
    for i := 0 to |changes|
      invariant signed == Signed(changes[..i], site)
    {
      signed := signed + [changes[i].(site := site)];
      assert changes[..i + 1][..i] == changes[..i];
    }
    assert changes[..|changes|] == changes;
  }

  class Replicator {
    const db: Replica
    const remoteDbId: Site
    var expectedSeq: Option<Seq>
    var acked: seq<Seq>
    var closedForError: bool
    /** Messages whose transaction was begun, but did not run yet: nobody waits for it. */
    var inFlight: seq<Message>

    constructor (db: Replica, remoteDbId: Site)
      ensures this.db == db && this.remoteDbId == remoteDbId && expectedSeq == None && acked == [] && !closedForError
      ensures inFlight == []
    {
      this.db, this.remoteDbId, expectedSeq, acked, closedForError := db, remoteDbId, None, [], false;
      inFlight := [];
    }

    /** Between two transactions. */
    ghost predicate Valid()
      reads this, db
    {
      db.Valid() && db.began == DbVersion(db.clock)
    }

    /** `#opened`: what is recorded as received is what the first message has to follow. */
    method Opened(recorded: Seq)
      modifies this`expectedSeq
      ensures expectedSeq == Some(recorded)
    {
      expectedSeq := Some(recorded);
    }

    /** `#applyChanges`: on a gap it asks to close, but still begins to apply the message, and it
        acknowledges without waiting for the transaction. */
    method ApplyChanges(m: Message)
      modifies this
      ensures old(expectedSeq).None? ==>
        closedForError && expectedSeq == None && acked == old(acked) && inFlight == old(inFlight)
      ensures old(expectedSeq).Some? ==>
        closedForError == (old(closedForError) || OutOfOrder(old(expectedSeq).value, m.seqStart)) &&
        expectedSeq == Some(m.seqEnd) && acked == old(acked) + [m.seqEnd] && inFlight == old(inFlight) + [m]
    {
      if expectedSeq.None? {
        closedForError := true;
        return;
      }
      var start, expected := m.seqStart, expectedSeq.value;
      if start.version > expected.version || (start.version > expected.version && start.minor != expected.minor) {
        closedForError := true;
      }
      inFlight := inFlight + [m];
      expectedSeq := Some(m.seqEnd);
      acked := acked + [m.seqEnd];
    }

    /** The transaction of `applyChangeset`, when its turn comes. */
    method RunApply()
      requires Valid() && inFlight != []
      modifies db, this`inFlight
      ensures Valid() && inFlight == old(inFlight)[1..]
      ensures ApplyChangeset(old(db.Abs()), old(inFlight)[0].changes, remoteDbId) == Ok(db.Abs())
    {
      hide RowsPresent, TableColumns, MergeAll, Signed;
      var signed := Sign(inFlight[0].changes, remoteDbId);
      db.ApplyChanges(signed);
      db.Commit();
      inFlight := inFlight[1..];
    }
  }
}
