/** A server that streams its changes to one client over FIFO channels, on every run: how many
    messages are unacknowledged, that no wake-up is lost, that messages follow each other without
    a gap, and what the client has when it has taken them in. */
module Delivery {
  import opened Wrappers
  import opened Crdt
  import opened Merging
  import opened Replica
  import opened Domination
  import opened Streaming

  /** The server's site, the client's, and the stream's limit. */
  datatype Link = Link(self: Site, site: Site, max: nat)

  /** `pending` are the queued notifications, by the site whose changes they announce. Of the
      messages sent, the client has handled the first `received`; its acks are on their way back or
      lost, and the transactions of those in `inFlight` have not run yet. `gap` says whether the
      client ever took a message for out of order. */
  datatype World = World(
    server: Db, pending: seq<Site>, stream: Option<Stream>, start: Seq, sent: seq<Message>,
    client: Db, expected: Seq, received: nat, inFlight: set<nat>, acks: nat, lost: nat, gap: bool)

  datatype Event =
    | Apply(source: Site, changes: seq<Change>)
    | Request(pulled: seq<Change>)
    | Notify(pulled: seq<Change>)
    | Receive
    | RunApply(k: nat)
    | Ack(pulled: seq<Change>)
    | LoseAck
    | ClientCommit(db: Db)
    | Close

  ghost predicate Enabled(l: Link, w: World, e: Event) {
    match e
    case Apply(source, changes) => ApplyChangeset(w.server, changes, source).Ok?
    case Request(pulled) =>
      w.stream.None? &&
      (Sends(UNBEGUN, l.max, l.site, None) ==> Pulls(w.server, l.self, w.expected, l.site, pulled))
    case Notify(pulled) =>
      w.pending != [] &&
      (w.stream.Some? && Sends(w.stream.value, l.max, l.site, Some(w.pending[0])) ==>
        Pulls(w.server, l.self, w.stream.value.lastSeq, l.site, pulled))
    case Receive => w.received < |w.sent|
    case RunApply(k) => k in w.inFlight && k < |w.sent| && ApplyChangeset(w.client, w.sent[k].changes, l.self).Ok?
    case Ack(pulled) =>
      w.acks > 0 && w.stream.Some? &&
      (Unblocks(w.stream.value, l.max) ==> Pulls(w.server, l.self, w.stream.value.lastSeq, l.site, pulled))
    case LoseAck => w.acks > 0
    case ClientCommit(db) => RowsPresent(db) && Advances(w.client, db, DbVersion(w.client.clock))
    case Close => w.stream.Some?
  }

  function Stepped(w: World, step: (Stream, Option<Message>)): World {
    w.(stream := Some(step.0), sent := w.sent + if step.1.Some? then [step.1.value] else [])
  }

  /** The client after the transaction of a message. */
  function ApplyClient(l: Link, w: World, k: nat): Db
    requires k < |w.sent| && ApplyChangeset(w.client, w.sent[k].changes, l.self).Ok?
  {
    ApplyChangeset(w.client, w.sent[k].changes, l.self).value
  }

  ghost function Do(l: Link, w: World, e: Event): World
    requires Enabled(l, w, e) && (w.stream.Some? ==> w.stream.value.begun)
  {
    match e
    case Apply(source, changes) =>
      w.(server := ApplyChangeset(w.server, changes, source).value, pending := w.pending + [source])
    case Request(pulled) => Stepped(w, Begin(UNBEGUN, l.max, l.site, w.expected, pulled)).(start := w.expected)
    case Notify(pulled) =>
      if w.stream.None? then w.(pending := w.pending[1..])
      else
        Stepped(w, DbChanged(w.stream.value, l.max, l.site, Some(w.pending[0]), pulled)).(pending := w.pending[1..])
    case Receive =>
      var m := w.sent[w.received];
      w.(expected := m.seqEnd, received := w.received + 1, inFlight := w.inFlight + {w.received},
         acks := w.acks + 1, gap := w.gap || OutOfOrder(w.expected, m.seqStart))
    case RunApply(k) =>
      w.(client := ApplyClient(l, w, k), inFlight := w.inFlight - {k})
    case Ack(pulled) => Stepped(w, ProcessAck(w.stream.value, l.max, l.site, pulled)).(acks := w.acks - 1)
    case LoseAck => w.(acks := w.acks - 1, lost := w.lost + 1)
    case ClientCommit(db) => w.(client := db)
    case Close => w.(stream := Some(w.stream.value.(closed := true)))
  }

  // ---- The sender -------------------------------------------------------------------------

  /** Where the k-th message has to start. */
  function End(start: Seq, sent: seq<Message>, k: nat): Seq
    requires k <= |sent|
  {
    if k == 0 then start else sent[k - 1].seqEnd
  }

  ghost predicate Chained(start: Seq, sent: seq<Message>) {
    forall k | 0 <= k < |sent| ::
      sent[k].seqStart == End(start, sent, k) && sent[k].seqStart.version < sent[k].seqEnd.version
  }

  ghost predicate Sent(sent: seq<Message>, db: Db, cell: Cell)
    requires cell in db.clock
  {
    exists k, ch :: 0 <= k < |sent| && ch in sent[k].changes && Answers(ch, db, cell)
  }

  /** Everything between the start and the last message that is not the client's was sent. */
  ghost predicate AllSent(server: Db, site: Site, start: Seq, sent: seq<Message>) {
    forall cell | cell in server.clock && server.clock[cell].site != Some(site) &&
                  start.version < server.clock[cell].dbVersion <= End(start, sent, |sent|).version ::
      Sent(sent, server, cell)
  }

  /** Nothing is left to send. */
  ghost predicate UpToDate(server: Db, site: Site, last: Seq) {
    forall cell | cell in server.clock :: !Selected(server, cell, last.version, Some(site))
  }

  ghost predicate SenderOk(l: Link, server: Db, start: Seq, s: Stream, sent: seq<Message>) {
    s.begun && RowsPresent(server) && s.lastSeq == End(start, sent, |sent|) && Chained(start, sent) &&
    (sent == [] || (server.clock != map[] && s.lastSeq.version <= DbVersion(server.clock))) &&
    AllSent(server, l.site, start, sent)
  }

  lemma PullEnd(db: Db, self: Site, since: Seq, site: Site, pulled: seq<Change>)
    requires Pulls(db, self, since, site, pulled)
    ensures pulled == [] ==> UpToDate(db, site, since)
    ensures pulled != [] ==>
      var last := pulled[|pulled| - 1].dbVersion;
      db.clock != map[] && since.version < last <= DbVersion(db.clock) && UpToDate(db, site, Seq(last, 0))
  {
    forall cell | cell in db.clock && Selected(db, cell, since.version, Some(site))
      ensures pulled != [] && db.clock[cell].dbVersion <= pulled[|pulled| - 1].dbVersion
    {
      var ch := ReadEntry(db, self, cell);
      assert ch in ReadSet(db, self, since.version, Some(site));
      assert ch in pulled;
    }
    if pulled != [] {
      assert pulled[|pulled| - 1] in ReadSet(db, self, since.version, Some(site));
    }
  }

  lemma PulledSent(l: Link, db: Db, start: Seq, sent: seq<Message>, m: Message)
    requires RowsPresent(db) && AllSent(db, l.site, start, sent) && m.seqStart == End(start, sent, |sent|)
    requires Pulls(db, l.self, m.seqStart, l.site, m.changes)
    ensures AllSent(db, l.site, start, sent + [m])
  {
    var more := sent + [m];
    assert more[|sent|] == m;
    forall cell | cell in db.clock && db.clock[cell].site != Some(l.site) &&
                  start.version < db.clock[cell].dbVersion <= m.seqEnd.version
      ensures Sent(more, db, cell)
    {
      hide Answers, ReadEntry, RowsPresent, Pulls;
      if db.clock[cell].dbVersion <= m.seqStart.version {
        var k, ch :| 0 <= k < |sent| && ch in sent[k].changes && Answers(ch, db, cell);
        assert more[k] == sent[k];
      } else {
        CellPulled(l, db, m, cell);
      }
    }
  }

  lemma CellPulled(l: Link, db: Db, m: Message, cell: Cell)
    requires RowsPresent(db) && Pulls(db, l.self, m.seqStart, l.site, m.changes)
    requires cell in db.clock && Selected(db, cell, m.seqStart.version, Some(l.site))
    ensures exists ch :: ch in m.changes && Answers(ch, db, cell)
  {
    var ch := ReadEntry(db, l.self, cell);
    assert ch in ReadSet(db, l.self, m.seqStart.version, Some(l.site));
    assert ch in m.changes;
    ReadAnswers(db, l.self, cell);
  }

  /** A notification that gets through leaves nothing to send, and what it sends follows on. */
  lemma DbChangedKeeps(l: Link, db: Db, start: Seq, s: Stream, sent: seq<Message>, source: Option<Site>,
    pulled: seq<Change>)
    requires SenderOk(l, db, start, s, sent)
    requires Sends(s, l.max, l.site, source) ==> Pulls(db, l.self, s.lastSeq, l.site, pulled)
    ensures var (s2, m) := DbChanged(s, l.max, l.site, source, pulled);
      SenderOk(l, db, start, s2, sent + if m.Some? then [m.value] else []) &&
      (Sends(s, l.max, l.site, source) ==> !s2.blockedSend && UpToDate(db, l.site, s2.lastSeq))
  {
    var (s2, m) := DbChanged(s, l.max, l.site, source, pulled);
    assert sent + [] == sent;
    if Sends(s, l.max, l.site, source) {
      PullEnd(db, l.self, s.lastSeq, l.site, pulled);
      hide Pulls, RowsPresent, UpToDate;
      if pulled != [] {
        PulledSent(l, db, start, sent, m.value);
        ChainedOneMore(start, sent, m.value);
      }
    }
  }

  lemma ChainedOneMore(start: Seq, sent: seq<Message>, m: Message)
    requires Chained(start, sent) && m.seqStart == End(start, sent, |sent|) && m.seqStart.version < m.seqEnd.version
    ensures Chained(start, sent + [m])
  {
  }

  // ---- The invariant ----------------------------------------------------------------------

  /** Each message is unacknowledged, acknowledged, or its ack is lost. */
  ghost predicate Counted(l: Link, w: World) {
    w.received <= |w.sent| &&
    if w.stream.None? then w.sent == [] && w.acks == 0 && w.lost == 0
    else
      var s := w.stream.value;
      s.outstandingAcks == |w.sent| - w.received + w.acks + w.lost &&
      (!s.closed ==> s.outstandingAcks <= l.max && (s.blockedSend ==> s.outstandingAcks == l.max))
  }

  /** Without a queued notification an open stream that is not blocked has nothing to send. */
  ghost predicate Awake(l: Link, w: World) {
    w.stream.Some? && !w.stream.value.closed && !w.stream.value.blockedSend &&
    (forall k | 0 <= k < |w.pending| :: w.pending[k] == l.site) ==>
      UpToDate(w.server, l.site, w.stream.value.lastSeq)
  }

  /** The client has taken in what it received and applied, and nothing was out of order. */
  ghost predicate ClientOk(w: World) {
    RowsPresent(w.client) && !w.gap && w.received <= |w.sent| &&
    (w.stream.Some? ==> w.expected == End(w.start, w.sent, w.received)) &&
    (forall k | k in w.inFlight :: k < w.received) &&
    forall k | 0 <= k < w.received && k !in w.inFlight :: TakenIn(w.client, w.sent[k])
  }

  ghost predicate TakenIn(db: Db, m: Message) {
    forall ch | ch in m.changes :: Absorbed(db, ch)
  }

  lemma TakenInStays(x: Db, y: Db, m: Message)
    requires Advances(x, y, DbVersion(x.clock)) && TakenIn(x, m)
    ensures TakenIn(y, m)
  {
    hide Advances, Absorbed;
    forall ch | ch in m.changes ensures Absorbed(y, ch) { AbsorbedStays(x, y, DbVersion(x.clock), ch); }
  }

  ghost predicate Inv(l: Link, w: World) {
    RowsPresent(w.server) && Counted(l, w) && Awake(l, w) && ClientOk(w) &&
    (w.stream.Some? ==> SenderOk(l, w.server, w.start, w.stream.value, w.sent))
  }

  // ---- Transactions -----------------------------------------------------------------------

  lemma {:induction false} SignedMembers(changes: seq<Change>, site: Site)
    ensures forall ch | ch in changes :: ch.(site := site) in Signed(changes, site)
    ensures forall ch | ch in Signed(changes, site) :: ch.site == site
  {
    if changes != [] {
      var n := |changes| - 1;
      SignedMembers(changes[..n], site);
      assert changes == changes[..n] + [changes[n]];
    }
  }

  lemma {:induction false} MergeAllSites(db: Db, changes: seq<Change>, next: int, site: Site)
    requires RowsPresent(db) && forall ch | ch in changes :: ch.site == site
    ensures MergeAll(db, changes, next).Ok? && RowsPresent(MergeAll(db, changes, next).value)
    ensures var after := MergeAll(db, changes, next).value;
      forall cell | cell in after.clock ::
        (cell in db.clock && after.clock[cell] == db.clock[cell]) || after.clock[cell].site == Some(site)
  {
    if changes != [] {
      var n := |changes| - 1;
      MergeAllSites(db, changes[..n], next, site);
      MergeSucceeds(MergeAll(db, changes[..n], next).value, changes[n], next);
      assert changes[n] in changes;
    }
  }

  /** Applying a message moves a database forward, takes in every change whatever its site, and
      makes entries of the sender only. */
  lemma AppliedMoves(db: Db, changes: seq<Change>, site: Site)
    requires RowsPresent(db)
    ensures var applied := ApplyChangeset(db, changes, site);
      applied.Ok? && RowsPresent(applied.value) && Advances(db, applied.value, DbVersion(db.clock)) &&
      (forall ch | ch in changes :: Absorbed(applied.value, ch)) &&
      (forall cell | cell in applied.value.clock ::
        (cell in db.clock && applied.value.clock[cell] == db.clock[cell]) ||
        applied.value.clock[cell].site == Some(site))
  {
    var signed := Signed(changes, site);
    SignedMembers(changes, site);
    MergeAllAbsorbs(db, signed, DbVersion(db.clock));
    MergeAllSites(db, signed, DbVersion(db.clock) + 1, site);
    var after := ApplyChangeset(db, changes, site).value;
    hide MergeAll, Signed, RowsPresent, Advances;
    forall ch | ch in changes ensures Absorbed(after, ch) {
      assert Absorbed(after, ch.(site := site));
    }
  }

  // ---- Every event keeps the invariant ----------------------------------------------------

  lemma AllSentStays(server: Db, after: Db, site: Site, start: Seq, sent: seq<Message>)
    requires Advances(server, after, DbVersion(server.clock)) && AllSent(server, site, start, sent)
    requires End(start, sent, |sent|).version <= DbVersion(server.clock) || sent == []
    ensures AllSent(after, site, start, sent)
  {
    hide Answers;
    forall cell | cell in after.clock && after.clock[cell].site != Some(site) &&
                  start.version < after.clock[cell].dbVersion <= End(start, sent, |sent|).version
      ensures Sent(sent, after, cell)
    {
      assert cell in server.clock && after.clock[cell] == server.clock[cell];
      var k, ch :| 0 <= k < |sent| && ch in sent[k].changes && Answers(ch, server, cell);
      AnswersStays(ch, server, after, cell);
    }
  }

  lemma ApplyKeeps(l: Link, w: World, source: Site, changes: seq<Change>)
    requires Inv(l, w)
    ensures Enabled(l, w, Apply(source, changes)) && Inv(l, Do(l, w, Apply(source, changes)))
  {
    hide ApplyChangeset, RowsPresent, Absorbed, Chained;
    AppliedMoves(w.server, changes, source);
    var server := ApplyChangeset(w.server, changes, source).value;
    if w.stream.Some? {
      AllSentStays(w.server, server, l.site, w.start, w.sent);
      if w.sent != [] { AdvancesNonempty(w.server, server); }
      hide Advances, AllSent;
      assert SenderOk(l, server, w.start, w.stream.value, w.sent);
    }
    assert Awake(l, Do(l, w, Apply(source, changes))) by { AwakeAfter(l, w, source, server); }
  }

  lemma AwakeAfter(l: Link, w: World, source: Site, server: Db)
    requires Awake(l, w)
    requires forall cell | cell in server.clock ::
      (cell in w.server.clock && server.clock[cell] == w.server.clock[cell]) || server.clock[cell].site == Some(source)
    ensures Awake(l, w.(server := server, pending := w.pending + [source]))
  {
    var more := w.pending + [source];
    assert more[|w.pending|] == source && forall k | 0 <= k < |w.pending| :: more[k] == w.pending[k];
  }

  /** More messages on the way change nothing for the client. */
  lemma ClientStays(w: World, after: World)
    requires ClientOk(w) && w.received <= |w.sent| <= |after.sent| && after.sent[..|w.sent|] == w.sent
    requires after.client == w.client && after.received == w.received
    requires after.gap == w.gap && after.inFlight == w.inFlight
    requires after.stream.Some? && after.expected == End(after.start, after.sent, after.received)
    ensures ClientOk(after)
  {
    hide RowsPresent, TakenIn;
    assert forall k | 0 <= k < w.received :: after.sent[k] == after.sent[..|w.sent|][k];
  }

  lemma NoStream(l: Link, w: World)
    requires Counted(l, w) && ClientOk(w) && w.stream.None?
    ensures w.sent == [] && w.received == 0 && w.inFlight == {}
  {
    hide TakenIn, RowsPresent;
    assert forall k | k in w.inFlight :: k < w.received;
    if k :| k in w.inFlight { assert false; }
  }

  lemma SentEmpty(l: Link, db: Db, start: Seq, s: Stream)
    requires RowsPresent(db) && s == UNBEGUN.(begun := true, lastSeq := start)
    ensures SenderOk(l, db, start, s, [])
  {
    hide RowsPresent;
  }

  lemma RequestKeeps(l: Link, w: World, pulled: seq<Change>)
    requires Inv(l, w) && Enabled(l, w, Request(pulled))
    ensures Inv(l, Do(l, w, Request(pulled)))
  {
    hide Pulls, RowsPresent, TakenIn, UpToDate, SenderOk;
    NoStream(l, w);
    var s := UNBEGUN.(begun := true, lastSeq := w.expected);
    SentEmpty(l, w.server, w.expected, s);
    DbChangedKeeps(l, w.server, w.expected, s, w.sent, None, pulled);
    ClientStays(w, Do(l, w, Request(pulled)));
  }

  lemma StreamBegun(l: Link, w: World)
    requires Inv(l, w)
    ensures w.stream.Some? ==> w.stream.value.begun
  {
  }

  lemma NotifyKeeps(l: Link, w: World, pulled: seq<Change>)
    requires Inv(l, w) && Enabled(l, w, Notify(pulled))
    ensures Inv(l, Do(l, w, Notify(pulled)))
  {
    hide Pulls, RowsPresent, SenderOk, TakenIn, UpToDate;
    if w.stream.Some? {
      StreamBegun(l, w);
      DbChangedKeeps(l, w.server, w.start, w.stream.value, w.sent, Some(w.pending[0]), pulled);
      var after := Do(l, w, Notify(pulled));
      assert forall k | 0 <= k < |after.pending| :: after.pending[k] == w.pending[k + 1];
      ClientStays(w, after);
    }
  }

  lemma FewerAcks(l: Link, db: Db, start: Seq, s: Stream, sent: seq<Message>)
    requires SenderOk(l, db, start, s, sent)
    ensures s.begun && SenderOk(l, db, start, s.(outstandingAcks := s.outstandingAcks - 1), sent)
  {
  }

  lemma AckKeeps(l: Link, w: World, pulled: seq<Change>)
    requires Inv(l, w) && Enabled(l, w, Ack(pulled))
    ensures Inv(l, Do(l, w, Ack(pulled)))
  {
    hide Pulls, RowsPresent, TakenIn, UpToDate, SenderOk;
    var s := w.stream.value;
    FewerAcks(l, w.server, w.start, s, w.sent);
    assert w.sent + [] == w.sent;
    if Unblocks(s, l.max) {
      DbChangedKeeps(l, w.server, w.start, s.(outstandingAcks := s.outstandingAcks - 1), w.sent, None, pulled);
    }
    ClientStays(w, Do(l, w, Ack(pulled)));
  }

  /** The next message starts where the client expects it. */
  lemma NextExpected(l: Link, w: World)
    requires Inv(l, w) && w.received < |w.sent|
    ensures w.stream.Some? && w.sent[w.received].seqStart == w.expected
  {
    hide RowsPresent, AllSent, Awake, TakenIn;
  }

  /** The client never meets a gap. */
  lemma ReceiveKeeps(l: Link, w: World)
    requires Inv(l, w) && w.received < |w.sent|
    ensures Enabled(l, w, Receive) && Inv(l, Do(l, w, Receive))
  {
    hide RowsPresent, SenderOk, UpToDate, TakenIn;
    StreamBegun(l, w);
    NextExpected(l, w);
  }

  /** A transaction of the client takes in its message, whatever others still wait. */
  lemma RunApplyKeeps(l: Link, w: World, k: nat)
    requires Inv(l, w) && k in w.inFlight
    ensures Enabled(l, w, RunApply(k)) && Inv(l, Do(l, w, RunApply(k)))
  {
    hide Absorbed, Advances, UpToDate, SenderOk, ApplyChangeset;
    assert k < w.received;
    StreamBegun(l, w);
    AppliedMoves(w.client, w.sent[k].changes, l.self);
    var client := ApplyClient(l, w, k);
    assert TakenIn(client, w.sent[k]);
    hide TakenIn, RowsPresent;
    forall m | 0 <= m < w.received && m !in w.inFlight - {k} ensures TakenIn(client, w.sent[m]) {
      if m != k { TakenInStays(w.client, client, w.sent[m]); }
    }
  }

  lemma ClientCommitKeeps(l: Link, w: World, db: Db)
    requires Inv(l, w) && Enabled(l, w, ClientCommit(db))
    ensures Inv(l, Do(l, w, ClientCommit(db)))
  {
    hide RowsPresent, TakenIn, Advances, UpToDate, SenderOk;
    StreamBegun(l, w);
    forall k | 0 <= k < w.received && k !in w.inFlight ensures TakenIn(db, w.sent[k]) {
      TakenInStays(w.client, db, w.sent[k]);
    }
  }

  lemma EventKeeps(l: Link, w: World, e: Event)
    requires Inv(l, w) && Enabled(l, w, e)
    ensures Inv(l, Do(l, w, e))
  {
    match e
    case Apply(source, changes) => ApplyKeeps(l, w, source, changes);
    case Request(pulled) => RequestKeeps(l, w, pulled);
    case Notify(pulled) => NotifyKeeps(l, w, pulled);
    case Receive => ReceiveKeeps(l, w);
    case RunApply(k) => RunApplyKeeps(l, w, k);
    case Ack(pulled) => AckKeeps(l, w, pulled);
    case LoseAck =>
    case ClientCommit(db) => ClientCommitKeeps(l, w, db);
    case Close =>
  }

  // ---- Runs -------------------------------------------------------------------------------

  /** Before the connection: any databases, the client expecting what it recorded. */
  ghost predicate Start(w: World) {
    RowsPresent(w.server) && RowsPresent(w.client) && w.stream == None && w.sent == [] && w.received == 0 &&
    w.inFlight == {} && w.acks == 0 && w.lost == 0 && !w.gap
  }

  ghost predicate LegalRun(l: Link, w: World, events: seq<Event>)
    decreases |events|, 0
  {
    events == [] ||
    (var n := |events| - 1;
     LegalRun(l, w, events[..n]) && Enabled(l, Run(l, w, events[..n]), events[n]) &&
     (Run(l, w, events[..n]).stream.Some? ==> Run(l, w, events[..n]).stream.value.begun))
  }

  ghost function Run(l: Link, w: World, events: seq<Event>): World
    requires LegalRun(l, w, events)
    decreases |events|, 1
  {
    if events == [] then w else
      var n := |events| - 1;
      Do(l, Run(l, w, events[..n]), events[n])
  }

  lemma {:induction false} RunKeeps(l: Link, w: World, events: seq<Event>)
    requires Start(w) && LegalRun(l, w, events)
    ensures Inv(l, Run(l, w, events))
  {
    if events != [] {
      hide Inv, Do, Enabled, Start;
      var n := |events| - 1;
      RunKeeps(l, w, events[..n]);
      EventKeeps(l, Run(l, w, events[..n]), events[n]);
    }
  }

  /** Flow control: on every run the messages on the way, the acks on the way and the lost acks
      are what the stream counts as outstanding, an open stream never exceeds its limit, and it
      blocks only at the limit. */
  lemma WindowHolds(l: Link, w: World, events: seq<Event>)
    requires Start(w) && LegalRun(l, w, events) && Run(l, w, events).stream.Some?
    ensures var end := Run(l, w, events);
      var s := end.stream.value;
      s.outstandingAcks == |end.sent| - end.received + end.acks + end.lost && s.outstandingAcks >= 0 &&
      (!s.closed ==> s.outstandingAcks <= l.max && (s.blockedSend ==> s.outstandingAcks == l.max))
  {
    RunKeeps(l, w, events);
  }

  /** With the default limit: never more than five messages are unacknowledged on an open stream, and it
      is blocked only when there are five. */
  lemma AtMostFive(l: Link, w: World, events: seq<Event>)
    requires Start(w) && LegalRun(l, w, events) && Run(l, w, events).stream.Some?
    requires l.max == DEFAULT_MAX_OUTSTANDING_ACKS
    ensures var end := Run(l, w, events);
      var s := end.stream.value;
      !s.closed ==> |end.sent| - end.received + end.acks + end.lost <= 5 &&
                    (s.blockedSend ==> |end.sent| - end.received + end.acks + end.lost == 5)
  {
    hide Run, LegalRun, Start;
    WindowHolds(l, w, events);
  }

  /** No lost wake-up: with no notification of somebody else's changes queued, an open stream that
      is not blocked has sent everything past its start that is not the client's. */
  lemma NoLostWakeUp(l: Link, w: World, events: seq<Event>, cell: Cell)
    requires Start(w) && LegalRun(l, w, events)
    requires var end := Run(l, w, events);
      end.stream.Some? && !end.stream.value.closed && !end.stream.value.blockedSend &&
      (forall k | 0 <= k < |end.pending| :: end.pending[k] == l.site) &&
      cell in end.server.clock && end.server.clock[cell].dbVersion > end.start.version &&
      end.server.clock[cell].site != Some(l.site)
    ensures var end := Run(l, w, events); Sent(end.sent, end.server, cell)
  {
    RunKeeps(l, w, events);
    var end := Run(l, w, events);
    assert !Selected(end.server, cell, end.stream.value.lastSeq.version, Some(l.site));
  }

  /** Contiguous delivery: every message starts where the one before ended and ends later, and the
      client never takes one for out of order. */
  lemma Contiguous(l: Link, w: World, events: seq<Event>)
    requires Start(w) && LegalRun(l, w, events)
    ensures var end := Run(l, w, events);
      !end.gap && (end.stream.Some? ==> Chained(end.start, end.sent)) && (end.stream.None? ==> end.sent == [])
  {
    RunKeeps(l, w, events);
  }

  /** A client that had everything of the server up to the start has, once it received all
      messages, applied them and no wake-up is due, everything that is not its own. */
  lemma ClientCatchesUp(l: Link, w: World, events: seq<Event>, cell: Cell)
    requires Start(w) && LegalRun(l, w, events)
    requires var end := Run(l, w, events);
      end.stream.Some? && !end.stream.value.closed && !end.stream.value.blockedSend &&
      end.received == |end.sent| && end.inFlight == {} &&
      (forall k | 0 <= k < |end.pending| :: end.pending[k] == l.site) &&
      cell in end.server.clock && end.server.clock[cell].dbVersion > end.start.version &&
      end.server.clock[cell].site != Some(l.site)
    ensures var end := Run(l, w, events); Covered(end.client, end.server, cell)
  {
    RunKeeps(l, w, events);
    NoLostWakeUp(l, w, events, cell);
    var end := Run(l, w, events);
    hide Run, LegalRun, SenderOk, Counted, Awake, Answers, Absorbed, Covered;
    var k, ch :| 0 <= k < |end.sent| && ch in end.sent[k].changes && Answers(ch, end.server, cell);
    assert TakenIn(end.client, end.sent[k]);
    AnswerCovers(end.client, ch, end.server, cell);
  }

  // ---- A receiver and an arbitrary sender -------------------------------------------------

  /** What the receiver takes follows on without a gap, and it takes the first message. */
  lemma {:induction false} TakenAccepted(messages: seq<Message>)
    ensures Accepted(Taken(messages)) && (messages != [] ==> Taken(messages) != [] && Taken(messages)[0] == messages[0])
  {
    if messages != [] { TakenAccepted(messages[..|messages| - 1]); }
  }

  /** Whatever a sender sends: every version after the start of the first accepted message, up to
      the largest end of any, lies in some accepted message. */
  lemma {:induction false} AcceptedCovers(messages: seq<Message>, last: nat, version: int)
    requires Accepted(messages) && last < |messages|
    requires messages[0].seqStart.version < version <= messages[last].seqEnd.version
    ensures exists k :: 0 <= k <= last && messages[k].seqStart.version < version <= messages[k].seqEnd.version
    decreases last
  {
    if messages[last].seqStart.version >= version {
      AcceptedCovers(messages, last - 1, version);
    }
  }

  /** So over any messages, in any order, some of them refused: from the start of the first one to
      the end of any that was taken, no version is missing in what was taken. */
  lemma ReceiverCovers(messages: seq<Message>, taken: Message, version: int)
    requires messages != [] && taken in Taken(messages)
    requires messages[0].seqStart.version < version <= taken.seqEnd.version
    ensures exists m :: m in Taken(messages) && m.seqStart.version < version <= m.seqEnd.version
  {
    TakenAccepted(messages);
    var all := Taken(messages);
    var last :| 0 <= last < |all| && all[last] == taken;
    AcceptedCovers(all, last, version);
    var k :| 0 <= k <= last && all[k].seqStart.version < version <= all[k].seqEnd.version;
    assert all[k] in all;
  }
}
