/** What a change stream, its connection and its receivers do to their fields, message by message. */
module Streaming {
  import opened Wrappers
  import opened Crdt
  import opened ChangesCursor
  import opened Replica

  /** `readonly [Version, number]` */
  datatype Seq = Seq(version: int, minor: int)

  /** A `receive` message; its changes carry no site, the receiver puts in the sender's. */
  datatype Message = Message(changes: seq<Change>, seqStart: Seq, seqEnd: Seq)

  datatype Stream = Stream(begun: bool, closed: bool, outstandingAcks: int, blockedSend: bool, lastSeq: Seq)

  const UNBEGUN := Stream(false, false, 0, false, Seq(0, 0))

  /** How many messages a stream leaves unacknowledged when its connection does not say. */
  const DEFAULT_MAX_OUTSTANDING_ACKS := 5

  /** What `pullChangeset` may return: the selected changes, in order of version and table. */
  ghost predicate Pulls(db: Db, self: Site, since: Seq, requestor: Site, changes: seq<Change>) {
    (set ch | ch in changes) == ReadSet(db, self, since.version, Some(requestor)) &&
    forall a, b | 0 <= a < b < |changes| :: InReadOrder(changes[a], changes[b])
  }

  /** Whether a notification gets as far as pulling. */
  predicate Sends(s: Stream, max: int, site: Site, source: Option<Site>) {
    !s.closed && source != Some(site) && s.outstandingAcks != max
  }

  /** `#dbChanged`, given what a pull returns. */
  function DbChanged(s: Stream, max: int, site: Site, source: Option<Site>, pulled: seq<Change>):
    (Stream, Option<Message>)
    requires s.begun
  {
    if s.closed || source == Some(site) then (s, None)
    else if s.outstandingAcks == max then (s.(blockedSend := true), None)
    else if pulled == [] then (s.(blockedSend := false), None)
    else
      var seqEnd := Seq(pulled[|pulled| - 1].dbVersion, 0);
      (s.(blockedSend := false, lastSeq := seqEnd, outstandingAcks := s.outstandingAcks + 1),
       Some(Message(pulled, s.lastSeq, seqEnd)))
  }

  /** `begin` on a stream that has not begun. */
  function Begin(s: Stream, max: int, site: Site, seqStart: Seq, pulled: seq<Change>): (Stream, Option<Message>) {
    DbChanged(s.(begun := true, lastSeq := seqStart), max, site, None, pulled)
  }

  /** Whether an ack unblocks the stream. */
  predicate Unblocks(s: Stream, max: int) {
    s.outstandingAcks - 1 == max - 1 && s.blockedSend
  }

  /** `processAck` */
  function ProcessAck(s: Stream, max: int, site: Site, pulled: seq<Change>): (Stream, Option<Message>)
    requires s.begun
  {
    var fewer := s.(outstandingAcks := s.outstandingAcks - 1);
    if Unblocks(s, max) then DbChanged(fewer, max, site, None, pulled) else (fewer, None)
  }

  /** A notification of changes of somebody else, for an open stream. Below the limit everything pulled
      goes out as one message, from the end of the last one to the version of the last change, and one
      more acknowledgement is due; with nothing pulled nothing goes out. At the limit nothing goes out
      and the stream blocks. */
  lemma NotificationExact(s: Stream, max: int, site: Site, source: Option<Site>, pulled: seq<Change>)
    requires s.begun && !s.closed && source != Some(site)
    ensures var (after, message) := DbChanged(s, max, site, source, pulled);
      after.begun && !after.closed &&
      if s.outstandingAcks == max then
        message == None && after.blockedSend && after.outstandingAcks == max && after.lastSeq == s.lastSeq
      else if pulled == [] then
        message == None && !after.blockedSend && after.outstandingAcks == s.outstandingAcks &&
        after.lastSeq == s.lastSeq
      else
        message.Some? && message.value.changes == pulled && message.value.seqStart == s.lastSeq &&
        message.value.seqEnd.version == pulled[|pulled| - 1].dbVersion && message.value.seqEnd.minor == 0 &&
        !after.blockedSend && after.outstandingAcks == s.outstandingAcks + 1 && after.lastSeq == message.value.seqEnd
  {
  }

  /** The window of a stream of a connection: up to five messages go out without an acknowledgement,
      the sixth waits, and the acknowledgement after that lets it go out. */
  lemma FiveOutstanding(s: Stream, site: Site, source: Option<Site>, pulled: seq<Change>)
    requires s.begun && !s.closed && source != Some(site) && 0 <= s.outstandingAcks <= 5 && pulled != []
    ensures var (after, message) := DbChanged(s, DEFAULT_MAX_OUTSTANDING_ACKS, site, source, pulled);
      (message.Some? <==> s.outstandingAcks < 5) && (after.blockedSend <==> s.outstandingAcks == 5) &&
      0 <= after.outstandingAcks <= 5
    ensures s.outstandingAcks > 0 ==>
      var (after, message) := ProcessAck(s, DEFAULT_MAX_OUTSTANDING_ACKS, site, pulled);
      (message.Some? <==> s.outstandingAcks == 5 && s.blockedSend) &&
      after.outstandingAcks == s.outstandingAcks - (if message.Some? then 0 else 1)
  {
  }

  /** The changes as the receiver writes them, with the site of the connection. */
  function Signed(changes: seq<Change>, site: Site): seq<Change> {
    if changes == [] then [] else
      var n := |changes| - 1;
      Signed(changes[..n], site) + [changes[n].(site := site)]
  }

  /** Every change in its place, with nothing but its site replaced. */
  lemma {:induction false} SignedAt(changes: seq<Change>, site: Site, k: nat)
    requires k < |changes|
    ensures |Signed(changes, site)| == |changes|
    ensures Signed(changes, site)[k] == changes[k].(site := site)
  {
    var n := |changes| - 1;
    if k < n {
      SignedAt(changes[..n], site, k);
    } else if n > 0 {
      SignedAt(changes[..n], site, 0);
    }
  }

  /** `applyChangeset`: one transaction. */
  function ApplyChangeset(db: Db, changes: seq<Change>, site: Site): Outcome<Db> {
    MergeAll(db, Signed(changes, site), DbVersion(db.clock) + 1)
  }

  /** What both receivers take for a gap: a message that starts after the end of the one before. */
  predicate OutOfOrder(expected: Seq, start: Seq) {
    start.version > expected.version
  }

  /** The messages of an arbitrary sender that the server's receiver takes: all but those that start
      after the end of the last one it took. */
  function Taken(messages: seq<Message>): seq<Message> {
    if messages == [] then [] else
      var n := |messages| - 1;
      var front := Taken(messages[..n]);
      if front != [] && OutOfOrder(front[|front| - 1].seqEnd, messages[n].seqStart) then front
      else front + [messages[n]]
  }

  lemma TakenOneMore(messages: seq<Message>, m: Message)
    ensures var front := Taken(messages);
      Taken(messages + [m]) ==
        if front != [] && OutOfOrder(front[|front| - 1].seqEnd, m.seqStart) then front else front + [m]
    ensures Taken([]) == []
  {
    assert (messages + [m])[..|messages|] == messages;
  }

  /** Each message starts at or before the end of the one before; so what is expected may go back. */
  predicate Accepted(messages: seq<Message>) {
    forall k | 0 < k < |messages| :: !OutOfOrder(messages[k - 1].seqEnd, messages[k].seqStart)
  }
}
