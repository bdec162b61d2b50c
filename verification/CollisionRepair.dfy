/** Inserting or moving behind an anchor whose key other rows of the list hold too. */
module CollisionRepair {
  import opened Wrappers
  import opened ByteOrder
  import opened FractIndex
  import opened OrderedTable
  import opened ListRefinement

  ghost predicate KeyLess(rows: Rows, x: Pk, y: Pk)
    requires x in rows && y in rows && rows[x].order.At? && rows[y].order.At?
  {
    Lt(KeyOf(rows, x), KeyOf(rows, y))
  }

  /** The anchor's new key lies below its old one and above every smaller key of the list. */
  lemma FixConflictKey(rows: Rows, after: Pk) returns (k: Key)
    requires Usable(rows) && after in rows
    ensures FixConflict(rows, after) == Ok(rows[after := rows[after].(order := At(k))])
    ensures Lt(k, KeyOf(rows, after))
    ensures forall j | j in KeysBelow(rows, rows[after].coll, KeyOf(rows, after)) :: Lt(j, k)
  {
    var target := KeyOf(rows, after);
    var below := KeysBelow(rows, rows[after].coll, target);
    var n := BoundExists(rows);
    ListKeysUsable(rows, rows[after].coll, n);
    k := KeyFromBounds(Greatest(below), Some(target), n);
    forall j | j in below ensures Lt(j, k) {
      var g := Greatest(below).value;
      LtTotal(j, g);
      if j != g { LtTransitive(j, g, k); }
    }
  }

  /** What the statement does at a collision: the anchor gets the new key, the row the old one. */
  lemma CollisionEffect(rows: Rows, op: Op) returns (k: Key)
    requires Usable(rows) && (op.InsertAfter? || op.MoveAfter?) && (op.IsInsert() <==> op.pk !in rows)
    requires op.after != op.pk && op.after in rows
    requires |Holders(rows, op.coll, KeyOf(rows, op.after))| > 1
    ensures Exec(rows, op) ==
      Ok(rows[op.after := rows[op.after].(order := At(k))][op.pk := Row(op.coll, rows[op.after].order)])
    ensures Lt(k, KeyOf(rows, op.after))
    ensures forall j | j in KeysBelow(rows, rows[op.after].coll, KeyOf(rows, op.after)) :: Lt(j, k)
  {
    k := FixConflictKey(rows, op.after);
  }

  /** t follows from rows by giving the anchor the key k and putting pk at the anchor's old key. */
  ghost predicate Repaired(rows: Rows, t: Rows, coll: Coll, pk: Pk, after: Pk, k: Key) {
    after != pk && InList(rows, after, coll) && (forall q | q in rows :: rows[q].order.At?) &&
    t == rows[after := rows[after].(order := At(k))][pk := Row(coll, rows[after].order)] &&
    Lt(k, KeyOf(rows, after)) && (forall j | j in KeysBelow(rows, coll, KeyOf(rows, after)) :: Lt(j, k))
  }

  lemma NothingBetween(rows: Rows, t: Rows, coll: Coll, pk: Pk, after: Pk, k: Key, q: Pk)
    requires Repaired(rows, t, coll, pk, after, k) && InList(t, q, coll)
    ensures !(KeyLess(t, after, q) && KeyLess(t, q, pk))
  {
    LtIrreflexive(k);
    LtIrreflexive(KeyOf(rows, after));
    if q != pk && q != after {
      var j := KeyOf(rows, q);
      assert KeyOf(t, q) == j;
      if Lt(j, KeyOf(rows, after)) {
        assert j in KeysBelow(rows, coll, KeyOf(rows, after));
        LtAsymmetric(j, k);
      }
    }
  }

  lemma PairKept(rows: Rows, t: Rows, coll: Coll, pk: Pk, after: Pk, k: Key, x: Pk, y: Pk)
    requires Repaired(rows, t, coll, pk, after, k)
    requires InList(rows, x, coll) && InList(rows, y, coll) && x != pk && y != pk && KeyLess(rows, x, y)
    ensures KeyLess(t, x, y)
  {
    LtIrreflexive(KeyOf(rows, after));
    if x == after {
      LtTransitive(k, KeyOf(rows, after), KeyOf(rows, y));
    } else if y == after {
      assert KeyOf(rows, x) in KeysBelow(rows, coll, KeyOf(rows, after));
    }
  }

  /** Collision repair: the row comes right behind its anchor with no key between them, nothing
      else moves, and no strictly ordered pair of other rows is reversed. */
  lemma RepairKeepsOrder(rows: Rows, op: Op) returns (t: Rows)
    requires Usable(rows) && (op.InsertAfter? || op.MoveAfter?) && (op.IsInsert() <==> op.pk !in rows)
    requires op.after != op.pk && InList(rows, op.after, op.coll)
    requires |Holders(rows, op.coll, KeyOf(rows, op.after))| > 1
    ensures Exec(rows, op) == Ok(t) && t.Keys == rows.Keys + {op.pk} && (forall q | q in t :: t[q].order.At?)
    ensures InList(t, op.pk, op.coll) && KeyOf(t, op.pk) == KeyOf(rows, op.after) && KeyLess(t, op.after, op.pk)
    ensures forall q | InList(t, q, op.coll) :: !(KeyLess(t, op.after, q) && KeyLess(t, q, op.pk))
    ensures forall q | q in rows && q != op.pk && q != op.after :: t[q] == rows[q]
    ensures forall x, y | InList(rows, x, op.coll) && InList(rows, y, op.coll) && x != op.pk && y != op.pk ::
      KeyLess(rows, x, y) ==> KeyLess(t, x, y)
  {
    hide Exec, Lt, Holders;
    var k := CollisionEffect(rows, op);
    t := Exec(rows, op).value;
    assert Repaired(rows, t, op.coll, op.pk, op.after, k);
    forall q | InList(t, q, op.coll) ensures !(KeyLess(t, op.after, q) && KeyLess(t, q, op.pk)) {
      NothingBetween(rows, t, op.coll, op.pk, op.after, k, q);
    }
    forall x, y |
      InList(rows, x, op.coll) && InList(rows, y, op.coll) && x != op.pk && y != op.pk && KeyLess(rows, x, y)
      ensures KeyLess(t, x, y)
    {
      PairKept(rows, t, op.coll, op.pk, op.after, k, x, y);
    }
  }

  /** An anchor from another list counts as the row of the target list that holds the same key,
      and as no anchor when there is none. */
  lemma ForeignAnchor(rows: Rows, coll: Coll, after: Pk)
    requires after in rows && rows[after].order.At? && rows[after].coll != coll
    ensures Holders(rows, coll, KeyOf(rows, after)) == {} ==> PlaceAfter(rows, coll, after) == Ok((rows, Front))
    ensures forall twin | Holders(rows, coll, KeyOf(rows, after)) == {twin} ::
      PlaceAfter(rows, coll, after) == PlaceAfter(rows, coll, twin)
  {
    forall twin | Holders(rows, coll, KeyOf(rows, after)) == {twin}
      ensures PlaceAfter(rows, coll, after) == PlaceAfter(rows, coll, twin)
    {
      assert twin in Holders(rows, coll, KeyOf(rows, after));
    }
  }

  /** When several rows of the target list hold the key of an anchor from another list, the repair
      moves the anchor down inside its own list, above everything that was below it, and the new row
      joins the tie: the target list is changed by nothing else. */
  lemma ForeignTie(rows: Rows, op: Op) returns (t: Rows)
    requires Usable(rows) && (op.InsertAfter? || op.MoveAfter?) && (op.IsInsert() <==> op.pk !in rows)
    requires op.after != op.pk && op.after in rows && rows[op.after].order.At? && rows[op.after].coll != op.coll
    requires |Holders(rows, op.coll, KeyOf(rows, op.after))| > 1
    ensures Exec(rows, op) == Ok(t) && t.Keys == rows.Keys + {op.pk}
    ensures Holders(t, op.coll, KeyOf(rows, op.after)) == Holders(rows, op.coll, KeyOf(rows, op.after)) + {op.pk}
    ensures InList(t, op.after, rows[op.after].coll) && t[op.after].order.At? &&
      Lt(KeyOf(t, op.after), KeyOf(rows, op.after))
    ensures forall j | j in KeysBelow(rows, rows[op.after].coll, KeyOf(rows, op.after)) :: Lt(j, KeyOf(t, op.after))
    ensures forall q | q in rows && q != op.pk && q != op.after :: t[q] == rows[q]
  {
    hide Exec, Lt, KeysBelow, Holders, Usable;
    var k := CollisionEffect(rows, op);
    t := Exec(rows, op).value;
    TieJoined(rows, op.coll, op.pk, op.after, k);
  }

  lemma TieJoined(rows: Rows, coll: Coll, pk: Pk, after: Pk, k: Key)
    requires after in rows && rows[after].order.At? && rows[after].coll != coll && after != pk
    ensures var t := rows[after := rows[after].(order := At(k))][pk := Row(coll, rows[after].order)];
      Holders(t, coll, KeyOf(rows, after)) == Holders(rows, coll, KeyOf(rows, after)) + {pk}
  {
    var t := rows[after := rows[after].(order := At(k))][pk := Row(coll, rows[after].order)];
    forall q
      ensures q in Holders(t, coll, KeyOf(rows, after)) <==> q in Holders(rows, coll, KeyOf(rows, after)) + {pk}
    {
    }
  }

  // ---- Which statements succeed -----------------------------------------------------------

  /** Every key of a list that has one can be used. */
  ghost predicate UsableKeys(rows: Rows) {
    forall pk | pk in rows && rows[pk].order.At? :: WfKey(rows[pk].order.key) && Accepted(rows[pk].order.key)
  }

  lemma NewKeyMade(a: Option<Key>, b: Option<Key>)
    requires ValidBound(a) && ValidBound(b) && (a.Some? && b.Some? ==> Lt(a.value, b.value))
    ensures NewKey(a, b).Ok?
  {
    hide KeyBetween, Lt;
    KeyBetweenCorrect(a, b);
  }

  lemma PendSucceeds(rows: Rows, pk: Pk)
    requires UsableKeys(rows) && pk in rows
    ensures Pend(rows, pk).Ok?
  {
    hide WfKey, Accepted, NewKey;
    var keys := ListKeys(rows, rows[pk].coll);
    assert forall k | k in keys :: WfKey(k) && Accepted(k);
    NewKeyMade(None, Least(keys));
    NewKeyMade(Greatest(keys), None);
  }

  /** A place is always found, and it is the front only where nothing was moved for it. */
  lemma PlaceSucceeds(rows: Rows, coll: Coll, after: Pk)
    requires Usable(rows)
    ensures PlaceAfter(rows, coll, after).Ok?
    ensures var (fixed, order) := PlaceAfter(rows, coll, after).value; order.At? || (order.Front? && fixed == rows)
  {
    hide WfKey, Accepted, NewKey, FixConflict, Lt;
    if after in rows {
      var target := rows[after].order.key;
      var above := KeysAbove(rows, coll, target);
      assert forall k | k in above :: WfKey(k) && Accepted(k) && Lt(target, k);
      NewKeyMade(Some(target), Least(above));
      var _ := FixConflictKey(rows, after);
    }
  }

  lemma UsableRow(rows: Rows, pk: Pk, row: Row)
    requires Usable(rows) && !row.order.At?
    ensures UsableKeys(rows[pk := row])
  {
  }

  /** On a table whose keys can be used a statement fails exactly when it inserts a key that there is;
      one that moves a row that is not there does nothing. */
  lemma ExecSucceedsIff(rows: Rows, op: Op)
    requires Usable(rows)
    ensures Exec(rows, op).Ok? <==> !(op.IsInsert() && op.pk in rows)
    ensures !op.IsInsert() && op.pk !in rows ==> Exec(rows, op) == Ok(rows)
  {
    hide Usable, UsableKeys, Pend, PlaceAfter;
    UsableRow(rows, op.pk, Row(op.coll, Front));
    UsableRow(rows, op.pk, Row(op.coll, Back));
    PendSucceeds(rows[op.pk := Row(op.coll, Front)], op.pk);
    PendSucceeds(rows[op.pk := Row(op.coll, Back)], op.pk);
    if op.InsertAfter? || op.MoveAfter? {
      PlaceSucceeds(rows, op.coll, op.after);
      var (fixed, order) := PlaceAfter(rows, op.coll, op.after).value;
      PendAt(fixed[op.pk := Row(op.coll, order)], op.pk);
    }
  }

  lemma PendAt(rows: Rows, pk: Pk)
    requires pk in rows
    ensures rows[pk].order.At? ==> Pend(rows, pk) == Ok(rows)
  {
  }
}
