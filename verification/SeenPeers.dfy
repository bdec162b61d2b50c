/** The peers seen in a transaction: an array that grows, searched linearly, written to
    `crsql_tracked_peers` on commit. */
module SeenPeers {
  import opened ByteOrder
  import opened Crdt

  datatype Peer = Peer(siteId: string, clock: int)

  /** A tracked message: where it came from and its version. */
  type Tracked = (string, int)

  const INITIAL_SIZE := 5

  // ---- Comparing site ids -----------------------------------------------------------------

  /** `memcmp` on the first n bytes: the difference at the first byte that differs. */
  method MemCmp(left: string, right: string, n: nat) returns (cmp: int)
    requires n <= |left| && n <= |right|
    ensures cmp == 0 ==> left[..n] == right[..n]
    ensures cmp < 0 ==> Differs(left, right, n)
    ensures cmp > 0 ==> Differs(right, left, n)
  {
    for i := 0 to n
      invariant left[..i] == right[..i]
    {
      if left[i] != right[i] { return left[i] as int - right[i] as int; }
    }
    return 0;
  }

  /** `crsql_siteIdCmp`: zero only for the same bytes in the same number, otherwise the byte order. */
  method SiteIdCmp(left: string, right: string) returns (cmp: int)
    ensures cmp in {-1, 0, 1}
    ensures cmp == 0 <==> left == right
    ensures cmp < 0 <==> Lt(left, right)
    ensures cmp > 0 <==> Lt(right, left)
  {
    var minLen := if |left| < |right| then |left| else |right|;
    var order := MemCmp(left, right, minLen);
    OrderDecided(left, right, minLen, order);
    if order == 0 {
      if |left| > |right| { return 1; }
      if |left| < |right| { return -1; }
      return 0;
    }
    return if order > 0 then 1 else -1;
  }

  ghost predicate Differs(a: string, b: string, n: nat)
    requires n <= |a| && n <= |b|
  {
    exists k :: 0 <= k < n && a[..k] == b[..k] && a[k] < b[k]
  }

  lemma OrderDecided(left: string, right: string, n: nat, order: int)
    requires n == if |left| < |right| then |left| else |right|
    requires order == 0 ==> left[..n] == right[..n]
    requires order < 0 ==> Differs(left, right, n)
    requires order > 0 ==> Differs(right, left, n)
    ensures left == right <==> order == 0 && |left| == |right|
    ensures Lt(left, right) <==> order < 0 || (order == 0 && |left| < |right|)
    ensures Lt(right, left) <==> order > 0 || (order == 0 && |left| > |right|)
  {
    LtIrreflexive(left);
    assert |left| == |right| ==> left[..n] == left && right[..n] == right;
    if order < 0 {
      DiffersBefore(left, right, n);
    } else if order > 0 {
      DiffersBefore(right, left, n);
    } else if |left| < |right| {
      PrefixBefore(left, right);
    } else if |left| > |right| {
      PrefixBefore(right, left);
    }
  }

  lemma DiffersBefore(a: string, b: string, n: nat)
    requires n <= |a| && n <= |b| && Differs(a, b, n)
    ensures Lt(a, b) && !Lt(b, a) && a != b
  {
    var k :| 0 <= k < n && a[..k] == b[..k] && a[k] < b[k];
    LtAtIndex(a, b, k);
    LtAsymmetric(a, b);
  }

  lemma PrefixBefore(a: string, b: string)
    requires |a| < |b| && b[..|a|] == a
    ensures Lt(a, b) && !Lt(b, a)
  {
    assert b == a + b[|a|..];
    LtProperPrefix(a, b[|a|..]);
    LtAsymmetric(a, b);
  }

  /** The first byte that differs decides. */
  lemma {:induction false} LtAtIndex(a: string, b: string, k: nat)
    requires k < |a| && k < |b| && a[..k] == b[..k] && a[k] < b[k]
    ensures Lt(a, b)
  {
    if k > 0 {
      assert a[0] == a[..k][0] == b[..k][0] == b[0];
      assert a[1..][..k - 1] == a[..k][1..] && b[1..][..k - 1] == b[..k][1..];
      LtAtIndex(a[1..], b[1..], k - 1);
    }
  }

  // ---- What tracking amounts to -----------------------------------------------------------

  /** The list after one message: the peer's clock is raised, or the peer is appended. */
  function Track(peers: seq<Peer>, siteId: string, clock: int): seq<Peer> {
    if peers == [] then [Peer(siteId, clock)]
    else if peers[0].siteId == siteId then [Peer(siteId, Max(peers[0].clock, clock))] + peers[1..]
    else [peers[0]] + Track(peers[1..], siteId, clock)
  }

  lemma {:induction false} TrackAt(peers: seq<Peer>, siteId: string, clock: int, i: nat)
    requires i <= |peers| && forall k | 0 <= k < i :: peers[k].siteId != siteId
    requires i < |peers| ==> peers[i].siteId == siteId
    ensures Track(peers, siteId, clock) ==
      if i < |peers| then peers[i := Peer(siteId, Max(peers[i].clock, clock))] else peers + [Peer(siteId, clock)]
  {
    if i > 0 {
      TrackAt(peers[1..], siteId, clock, i - 1);
      assert peers == [peers[0]] + peers[1..];
    }
  }

  ghost predicate Distinct(peers: seq<Peer>) {
    forall a, b | 0 <= a < b < |peers| :: peers[a].siteId != peers[b].siteId
  }

  class SeenPeers {
    var peers: array<Peer>
    var len: nat
    var capacity: nat

    ghost predicate Valid()
      reads this
    {
      peers.Length == capacity && 0 < capacity && len <= capacity
    }

    ghost function Contents(): seq<Peer>
      requires Valid()
      reads this, peers
    {
      peers[..len]
    }

    /** `crsql_newSeenPeers` */
    constructor ()
      ensures Valid() && fresh(peers) && Contents() == []
    {
      peers := new Peer[INITIAL_SIZE](_ => Peer("", 0));
      len, capacity := 0, INITIAL_SIZE;
    }

    /** The reallocation: twice the room, the same entries. */
    method Grow()
      requires Valid()
      modifies this
      ensures Valid() && fresh(peers) && capacity == 2 * old(capacity) && len == old(len)
      ensures Contents() == old(Contents())
    {
      capacity := capacity * 2;
      var bigger := new Peer[capacity](_ => Peer("", 0));
      for i := 0 to len
        invariant peers == old(peers) && len == old(len) <= peers.Length
        invariant capacity == 2 * old(capacity) == bigger.Length
        invariant bigger[..i] == peers[..i]
      {
        bigger[i] := peers[i];
      }
      peers := bigger;
    }

    /** `crsql_trackSeenPeer` */
    method TrackSeenPeer(siteId: string, clock: int)
      requires Valid()
      modifies this, peers
      ensures Valid() && (peers == old(peers) || fresh(peers))
      ensures Contents() == Track(old(Contents()), siteId, clock)
    {
      for i := 0 to len
        invariant Valid() && peers == old(peers) && Contents() == old(Contents())
        invariant forall k | 0 <= k < i :: peers[k].siteId != siteId
      {
        var cmp := SiteIdCmp(siteId, peers[i].siteId);
        if cmp == 0 {
          TrackAt(Contents(), siteId, clock, i);
          if peers[i].clock < clock { peers[i] := Peer(peers[i].siteId, clock); }
          return;
        }
      }
      TrackAt(Contents(), siteId, clock, len);
      if len == capacity { Grow(); }
      peers[len] := Peer(siteId, clock);
      len := len + 1;
    }

    /** `crsql_resetSeenPeers` */
    method Reset()
      requires Valid()
      modifies this`len
      ensures Valid() && Contents() == []
    {
      len := 0;
    }

    /** `crsql_writeTrackedPeers`: upserts every peer into the table, which is returned. */
    method WriteTrackedPeers(table: map<string, int>) returns (written: map<string, int>)
      requires Valid()
      ensures written == UpsertAll(table, Contents())
    {
      written := table;
      for i := 0 to len
        invariant written == UpsertAll(table, peers[..i])
      {
        written := Upsert(written, peers[i]);
        assert peers[..i + 1][..i] == peers[..i];
      }
    }
  }

  /** What an upsert leaves for its site. */
  function UpsertedAt(table: map<string, int>, p: Peer): int {
    if p.siteId in table then Max(table[p.siteId], p.clock) else p.clock
  }

  /** INSERT ... ON CONFLICT DO UPDATE SET version = MAX(version, EXCLUDED.version) */
  function Upsert(table: map<string, int>, p: Peer): map<string, int> {
    table[p.siteId := UpsertedAt(table, p)]
  }

  function UpsertAll(table: map<string, int>, peers: seq<Peer>): map<string, int> {
    if peers == [] then table else
      Upsert(UpsertAll(table, peers[..|peers| - 1]), peers[|peers| - 1])
  }

  // ---- Refinement -------------------------------------------------------------------------

  function TrackAll(peers: seq<Peer>, tracked: seq<Tracked>): seq<Peer> {
    if tracked == [] then peers else
      var n := |tracked| - 1;
      Track(TrackAll(peers, tracked[..n]), tracked[n].0, tracked[n].1)
  }

  /** The sites in the order in which they were first seen. */
  function FirstSeen(tracked: seq<Tracked>): seq<string> {
    if tracked == [] then [] else
      var n := |tracked| - 1;
      var front := FirstSeen(tracked[..n]);
      if tracked[n].0 in front then front else front + [tracked[n].0]
  }

  ghost predicate Mentions(tracked: seq<Tracked>, siteId: string) {
    exists t :: t in tracked && t.0 == siteId
  }

  lemma MentionsBoth(a: seq<Tracked>, b: seq<Tracked>)
    ensures forall s :: Mentions(a + b, s) <==> Mentions(a, s) || Mentions(b, s)
  {
    forall s ensures Mentions(a + b, s) <==> Mentions(a, s) || Mentions(b, s) {
      if t :| t in a && t.0 == s { assert t in a + b; }
      if t :| t in b && t.0 == s { assert t in a + b; }
    }
  }

  lemma MentionsLast(tracked: seq<Tracked>)
    requires tracked != []
    ensures var n := |tracked| - 1;
      forall s :: Mentions(tracked, s) <==> Mentions(tracked[..n], s) || s == tracked[n].0
  {
    var n := |tracked| - 1;
    assert tracked == tracked[..n] + [tracked[n]];
    MentionsBoth(tracked[..n], [tracked[n]]);
    assert Mentions([tracked[n]], tracked[n].0) by { assert tracked[n] in [tracked[n]]; }
  }

  /** The largest version tracked for a site. */
  ghost predicate IsLargest(tracked: seq<Tracked>, siteId: string, clock: int) {
    (siteId, clock) in tracked && forall t | t in tracked && t.0 == siteId :: t.1 <= clock
  }

  ghost predicate Lists(peers: seq<Peer>, tracked: seq<Tracked>) {
    |peers| == |FirstSeen(tracked)| &&
    forall k | 0 <= k < |peers| ::
      peers[k].siteId == FirstSeen(tracked)[k] && IsLargest(tracked, peers[k].siteId, peers[k].clock)
  }

  lemma {:induction false} FirstSeenSites(tracked: seq<Tracked>)
    ensures var seen := FirstSeen(tracked);
      (forall s :: s in seen <==> Mentions(tracked, s)) &&
      (forall a, b | 0 <= a < b < |seen| :: seen[a] != seen[b])
  {
    if tracked != [] {
      hide Mentions;
      var n := |tracked| - 1;
      FirstSeenSites(tracked[..n]);
      MentionsLast(tracked);
      assert forall a | 0 <= a < |FirstSeen(tracked[..n])| :: FirstSeen(tracked[..n])[a] in FirstSeen(tracked[..n]);
    }
  }

  lemma FirstSeenMore(tracked: seq<Tracked>, t: Tracked)
    ensures var front := FirstSeen(tracked);
      FirstSeen(tracked + [t]) == if t.0 in front then front else front + [t.0]
  {
    assert (tracked + [t])[..|tracked|] == tracked;
  }

  lemma LargestLater(tracked: seq<Tracked>, t: Tracked, siteId: string, clock: int)
    requires IsLargest(tracked, siteId, clock)
    ensures IsLargest(tracked + [t], siteId, if t.0 == siteId then Max(clock, t.1) else clock)
  {
  }

  lemma LargestFirst(tracked: seq<Tracked>, t: Tracked)
    requires !Mentions(tracked, t.0)
    ensures IsLargest(tracked + [t], t.0, t.1)
  {
  }

  /** After any messages since a reset: one entry for each site, in the order in which they were
      first seen, each with the largest version tracked for it. */
  lemma {:induction false} TrackAllLists(tracked: seq<Tracked>)
    ensures Lists(TrackAll([], tracked), tracked) && Distinct(TrackAll([], tracked))
  {
    FirstSeenSites(tracked);
    if tracked != [] {
      var n := |tracked| - 1;
      var front, t := TrackAll([], tracked[..n]), tracked[n];
      TrackAllLists(tracked[..n]);
      FirstSeenSites(tracked[..n]);
      assert tracked == tracked[..n] + [t];
      if t.0 in FirstSeen(tracked[..n]) {
        var k :| 0 <= k < |front| && FirstSeen(tracked[..n])[k] == t.0;
        KnownSite(tracked[..n], t, front, k);
      } else {
        NewSite(tracked[..n], t, front);
      }
    }
  }

  lemma KnownSite(tracked: seq<Tracked>, t: Tracked, front: seq<Peer>, k: nat)
    requires Lists(front, tracked) && Distinct(front) && k < |front| && front[k].siteId == t.0
    ensures Lists(Track(front, t.0, t.1), tracked + [t])
  {
    hide IsLargest, Track, FirstSeen;
    TrackAt(front, t.0, t.1, k);
    FirstSeenMore(tracked, t);
    assert FirstSeen(tracked)[k] in FirstSeen(tracked);
    var after := front[k := Peer(t.0, Max(front[k].clock, t.1))];
    forall m | 0 <= m < |after| ensures IsLargest(tracked + [t], after[m].siteId, after[m].clock) {
      LargestLater(tracked, t, front[m].siteId, front[m].clock);
    }
  }

  lemma NewSite(tracked: seq<Tracked>, t: Tracked, front: seq<Peer>)
    requires Lists(front, tracked) && t.0 !in FirstSeen(tracked) && !Mentions(tracked, t.0)
    ensures Lists(Track(front, t.0, t.1), tracked + [t])
  {
    hide IsLargest, Track, Mentions, FirstSeen;
    assert forall m | 0 <= m < |front| :: FirstSeen(tracked)[m] in FirstSeen(tracked);
    TrackAt(front, t.0, t.1, |front|);
    FirstSeenMore(tracked, t);
    LargestFirst(tracked, t);
    var after := front + [Peer(t.0, t.1)];
    forall m | 0 <= m < |after| ensures IsLargest(tracked + [t], after[m].siteId, after[m].clock) {
      if m < |front| { LargestLater(tracked, t, front[m].siteId, front[m].clock); }
    }
  }

  // ---- Runs of transactions ---------------------------------------------------------------

  /** The messages tracked in one transaction, whether it wrote to `crsql_changes` at all, and
      whether it commits. Only a commit of a transaction that did calls the table's commit method;
      nothing happens to the list on a rollback. */
  datatype Transaction = Transaction(tracked: seq<Tracked>, wroteChanges: bool, committed: bool)

  predicate Flushes(tx: Transaction) {
    tx.wroteChanges && tx.committed
  }

  /** Tracking happens inside writes to `crsql_changes`. */
  predicate Possible(txs: seq<Transaction>) {
    forall tx | tx in txs :: tx.tracked != [] ==> tx.wroteChanges
  }

  /** The list and the table after some transactions. */
  function Run(txs: seq<Transaction>): (seq<Peer>, map<string, int>) {
    if txs == [] then ([], map[]) else
      var n := |txs| - 1;
      var (peers, table) := Run(txs[..n]);
      var seen := TrackAll(peers, txs[n].tracked);
      if Flushes(txs[n]) then ([], UpsertAll(table, seen)) else (seen, table)
  }

  /** The messages since the last flush. */
  function Waiting(txs: seq<Transaction>): seq<Tracked> {
    if txs == [] then [] else
      var n := |txs| - 1;
      if Flushes(txs[n]) then [] else Waiting(txs[..n]) + txs[n].tracked
  }

  /** The messages up to the last flush, those of rolled back transactions included. */
  function Written(txs: seq<Transaction>): seq<Tracked> {
    if txs == [] then [] else
      var n := |txs| - 1;
      if Flushes(txs[n]) then Written(txs[..n]) + (Waiting(txs[..n]) + txs[n].tracked) else Written(txs[..n])
  }

  /** The table has exactly the sites of some messages, each with its largest version. */
  ghost predicate Records(table: map<string, int>, tracked: seq<Tracked>) {
    (forall s :: s in table <==> Mentions(tracked, s)) &&
    forall s | s in table :: IsLargest(tracked, s, table[s])
  }

  lemma {:induction false} TrackAllBoth(peers: seq<Peer>, a: seq<Tracked>, b: seq<Tracked>)
    ensures TrackAll(TrackAll(peers, a), b) == TrackAll(peers, a + b)
  {
    if b == [] {
      assert a + b == a;
    } else {
      TrackAllBoth(peers, a, b[..|b| - 1]);
      assert (a + b)[..|a + b| - 1] == a + b[..|b| - 1];
    }
  }

  lemma {:induction false} UpsertAllAt(table: map<string, int>, peers: seq<Peer>, k: nat)
    requires Distinct(peers) && k < |peers|
    ensures peers[k].siteId in UpsertAll(table, peers)
    ensures UpsertAll(table, peers)[peers[k].siteId] == UpsertedAt(table, peers[k])
  {
    var n := |peers| - 1;
    if k < n {
      UpsertAllAt(table, peers[..n], k);
    } else {
      UpsertAllElsewhere(table, peers[..n], peers[n].siteId);
    }
  }

  lemma {:induction false} UpsertAllElsewhere(table: map<string, int>, peers: seq<Peer>, s: string)
    requires forall k | 0 <= k < |peers| :: peers[k].siteId != s
    ensures var after := UpsertAll(table, peers);
      (s in after <==> s in table) && (s in table ==> after[s] == table[s])
  {
    if peers != [] { UpsertAllElsewhere(table, peers[..|peers| - 1], s); }
  }

  lemma LargestBoth(a: seq<Tracked>, b: seq<Tracked>, s: string, x: int, y: int)
    requires IsLargest(a, s, x) && IsLargest(b, s, y)
    ensures IsLargest(a + b, s, Max(x, y))
  {
  }

  lemma LargestOne(a: seq<Tracked>, b: seq<Tracked>, s: string, x: int)
    requires (IsLargest(a, s, x) && !Mentions(b, s)) || (!Mentions(a, s) && IsLargest(b, s, x))
    ensures IsLargest(a + b, s, x)
  {
    if !Mentions(b, s) { NoneWritten(b, s); } else { NoneWritten(a, s); }
  }

  lemma RecordsSite(table: map<string, int>, peers: seq<Peer>, written: seq<Tracked>, waiting: seq<Tracked>, s: string)
    requires Records(table, written) && Lists(peers, waiting) && Distinct(peers)
    ensures var after := UpsertAll(table, peers);
      (s in after <==> Mentions(written + waiting, s)) && (s in after ==> IsLargest(written + waiting, s, after[s]))
  {
    hide UpsertAll, IsLargest, Mentions, FirstSeen;
    MentionsBoth(written, waiting);
    FirstSeenSites(waiting);
    if s in FirstSeen(waiting) {
      var k :| 0 <= k < |peers| && FirstSeen(waiting)[k] == s;
      UpsertAllAt(table, peers, k);
      if s in table {
        LargestBoth(written, waiting, s, table[s], peers[k].clock);
      } else {
        LargestOne(written, waiting, s, peers[k].clock);
      }
    } else {
      assert forall k | 0 <= k < |peers| :: FirstSeen(waiting)[k] in FirstSeen(waiting);
      UpsertAllElsewhere(table, peers, s);
      if s in table { LargestOne(written, waiting, s, table[s]); }
    }
  }

  lemma RecordsMore(table: map<string, int>, written: seq<Tracked>, waiting: seq<Tracked>)
    requires Records(table, written)
    ensures Records(UpsertAll(table, TrackAll([], waiting)), written + waiting)
  {
    hide TrackAll, UpsertAll, Mentions, IsLargest, Distinct, Lists;
    var peers := TrackAll([], waiting);
    TrackAllLists(waiting);
    forall s ensures var after := UpsertAll(table, peers);
      (s in after <==> Mentions(written + waiting, s)) && (s in after ==> IsLargest(written + waiting, s, after[s]))
    {
      RecordsSite(table, peers, written, waiting, s);
    }
  }

  lemma NoneWritten(tracked: seq<Tracked>, s: string)
    requires !Mentions(tracked, s)
    ensures forall t | t in tracked :: t.0 != s
  {
  }

  /** After any run of transactions, committed or rolled back, the table holds for every site the
      largest version in any message up to the last flush, and the list holds the rest. */
  lemma {:induction false} RunRecords(txs: seq<Transaction>)
    ensures Records(Run(txs).1, Written(txs)) && Run(txs).0 == TrackAll([], Waiting(txs))
  {
    if txs != [] {
      var n := |txs| - 1;
      RunRecords(txs[..n]);
      TrackAllBoth([], Waiting(txs[..n]), txs[n].tracked);
      RecordsMore(Run(txs[..n]).1, Written(txs[..n]), Waiting(txs[..n]) + txs[n].tracked);
    }
  }

  // ---- Committed and rolled back messages -------------------------------------------------

  /** The messages of the transactions that committed, or of those that did not. */
  function Messages(txs: seq<Transaction>, committed: bool): seq<Tracked> {
    if txs == [] then [] else
      var n := |txs| - 1;
      Messages(txs[..n], committed) + if txs[n].committed == committed then txs[n].tracked else []
  }

  lemma {:induction false} CommittedWritten(txs: seq<Transaction>)
    requires Possible(txs)
    ensures forall t | t in Messages(txs, true) :: t in Written(txs)
  {
    if txs != [] {
      assert txs[|txs| - 1] in txs;
      CommittedWritten(txs[..|txs| - 1]);
    }
  }

  lemma {:induction false} WrittenFrom(txs: seq<Transaction>)
    ensures forall t | t in Written(txs) || t in Waiting(txs) :: t in Messages(txs, true) || t in Messages(txs, false)
  {
    if txs != [] { WrittenFrom(txs[..|txs| - 1]); }
  }

  /** Every message of a rolled back transaction that was written is matched by a committed one of
      its site with a version at least as large. */
  ghost predicate Matched(txs: seq<Transaction>) {
    forall t | t in Written(txs) && t in Messages(txs, false) :: HasMatch(Messages(txs, true), t)
  }

  ghost predicate HasMatch(tracked: seq<Tracked>, t: Tracked) {
    exists c :: c in tracked && c.0 == t.0 && c.1 >= t.1
  }

  lemma PartMatches(table: map<string, int>, all: seq<Tracked>, part: seq<Tracked>, t: Tracked)
    requires Records(table, all) && Records(table, part) && t in all
    ensures HasMatch(part, t)
  {
    assert Mentions(all, t.0);
    assert IsLargest(all, t.0, table[t.0]) && IsLargest(part, t.0, table[t.0]);
  }

  lemma MatchesRecord(table: map<string, int>, all: seq<Tracked>, part: seq<Tracked>, s: string)
    requires Records(table, all) && (forall t | t in part :: t in all) && forall t | t in all :: HasMatch(part, t)
    ensures s in table <==> Mentions(part, s)
    ensures s in table ==> IsLargest(part, s, table[s])
  {
    if s in table {
      assert IsLargest(all, s, table[s]) && HasMatch(part, (s, table[s]));
    }
  }

  /** What records some messages records a part of them exactly when the part matches all. */
  lemma PartRecords(table: map<string, int>, all: seq<Tracked>, part: seq<Tracked>)
    requires Records(table, all) && forall t | t in part :: t in all
    ensures Records(table, part) <==> forall t | t in all :: HasMatch(part, t)
  {
    hide Mentions, IsLargest, HasMatch;
    if Records(table, part) {
      forall t | t in all ensures HasMatch(part, t) { PartMatches(table, all, part, t); }
    }
    if forall t | t in all :: HasMatch(part, t) {
      forall s ensures (s in table <==> Mentions(part, s)) && (s in table ==> IsLargest(part, s, table[s])) {
        MatchesRecord(table, all, part, s);
      }
    }
  }

  /** The table holds the largest committed version of every site exactly when every rolled back
      message that a later commit wrote is matched by a committed one. */
  lemma CommittedRecordsIff(txs: seq<Transaction>)
    requires Possible(txs)
    ensures Records(Run(txs).1, Messages(txs, true)) <==> Matched(txs)
  {
    RunRecords(txs);
    CommittedWritten(txs);
    WrittenFrom(txs);
    PartRecords(Run(txs).1, Written(txs), Messages(txs, true));
    forall t | t in Messages(txs, true) ensures HasMatch(Messages(txs, true), t) {}
  }

  lemma {:induction false} NoneRolledBack(txs: seq<Transaction>)
    requires forall tx | tx in txs :: tx.committed
    ensures Messages(txs, false) == []
  {
    if txs != [] {
      assert txs[|txs| - 1] in txs;
      NoneRolledBack(txs[..|txs| - 1]);
    }
  }

  /** When every transaction commits, that is the largest version ever tracked. */
  lemma CommittedRecords(txs: seq<Transaction>)
    requires Possible(txs) && forall tx | tx in txs :: tx.committed
    ensures Records(Run(txs).1, Messages(txs, true))
  {
    NoneRolledBack(txs);
    CommittedRecordsIff(txs);
  }

  /** A rolled back version is written by the next commit that wrote to `crsql_changes`, although
      that one saw a smaller version; a commit that did not write there writes nothing. */
  lemma RolledBackWritten(siteId: string)
    ensures var lost := Transaction([(siteId, 9)], true, false);
      var txs := [lost, Transaction([(siteId, 3)], true, true)];
      Possible(txs) && Run(txs).1 == map[siteId := 9] && !Records(Run(txs).1, Messages(txs, true)) &&
      Run([lost, Transaction([], false, true)]).1 == map[]
  {
    var lost := Transaction([(siteId, 9)], true, false);
    var seen := Transaction([(siteId, 3)], true, true);
    RunMore([], lost);
    RunMore([lost], seen);
    RunMore([lost], Transaction([], false, true));
    TrackOne([], (siteId, 9));
    TrackOne([Peer(siteId, 9)], (siteId, 3));
    var other := Transaction([], false, true);
    assert [lost, seen] == [lost] + [seen] && [lost, other] == [lost] + [other];
    assert [Peer(siteId, 9)][..0] == [];
    assert !IsLargest([(siteId, 3)], siteId, 9);
  }

  lemma RunMore(txs: seq<Transaction>, tx: Transaction)
    ensures Run(txs + [tx]) ==
      var (peers, table) := Run(txs);
      var seen := TrackAll(peers, tx.tracked);
      if Flushes(tx) then ([], UpsertAll(table, seen)) else (seen, table)
    ensures Messages(txs + [tx], true) == Messages(txs, true) + if tx.committed then tx.tracked else []
  {
    assert (txs + [tx])[..|txs|] == txs;
  }

  lemma TrackOne(peers: seq<Peer>, t: Tracked)
    ensures TrackAll(peers, [t]) == Track(peers, t.0, t.1)
  {
    assert [t][..0] == [];
  }
}
