/** The ordered table refines plain lists: sorting a list's rows by key always gives the list
    that the statements describe. */
module ListRefinement {
  import opened Wrappers
  import opened ByteOrder
  import opened Base62
  import opened IntegerPart
  import opened FractIndex
  import opened OrderedTable

  // ---- Plain lists ------------------------------------------------------------------------

  type Lists = map<Coll, seq<Pk>>

  function ListOf(lists: Lists, coll: Coll): seq<Pk> {
    if coll in lists then lists[coll] else []
  }

  function IndexOf(s: seq<Pk>, pk: Pk): (r: Option<nat>)
    ensures if pk in s then r.Some? && r.value < |s| && s[r.value] == pk else r.None?
  {
    if s == [] then None
    else if s[0] == pk then Some(0)
    else match IndexOf(s[1..], pk)
         case None => None
         case Some(i) => Some(i + 1)
  }

  function Without(s: seq<Pk>, pk: Pk): seq<Pk> {
    match IndexOf(s, pk)
    case None => s
    case Some(i) => s[..i] + s[i + 1..]
  }

  function InsertedAt(s: seq<Pk>, i: nat, pk: Pk): seq<Pk>
    requires i <= |s|
  {
    s[..i] + [pk] + s[i..]
  }

  /** Where an operation puts its row in a list that no longer holds it. */
  function Position(s: seq<Pk>, op: Op): (i: nat)
    ensures i <= |s|
  {
    match op
    case Append(_, _) => |s|
    case MoveToEnd(_, _) => |s|
    case Prepend(_, _) => 0
    case MoveToStart(_, _) => 0
    case _ => if IndexOf(s, op.after).Some? then IndexOf(s, op.after).value + 1 else 0
  }

  ghost predicate Present(lists: Lists, pk: Pk) {
    exists c :: pk in ListOf(lists, c)
  }

  function WithoutAll(lists: Lists, pk: Pk): Lists {
    map c | c in lists :: Without(lists[c], pk)
  }

  /** The meaning of an operation on plain lists; moving a row that is not there does nothing. */
  ghost function Plain(lists: Lists, op: Op): Lists {
    if !op.IsInsert() && !Present(lists, op.pk) then lists else
      var rest := WithoutAll(lists, op.pk);
      var s := ListOf(rest, op.coll);
      rest[op.coll := InsertedAt(s, Position(s, op), op.pk)]
  }

  /** Inserts use fresh primary keys; the anchor is another row, in the target list or nowhere. */
  ghost predicate Legal(lists: Lists, op: Op) {
    (op.IsInsert() ==> !Present(lists, op.pk)) &&
    (op.InsertAfter? || op.MoveAfter? ==>
      op.after != op.pk && (op.after in ListOf(lists, op.coll) || !Present(lists, op.after)))
  }

  // ---- The table read as lists ------------------------------------------------------------

  function KeyOf(rows: Rows, pk: Pk): Key
    requires pk in rows && rows[pk].order.At?
  {
    rows[pk].order.key
  }

  /** s is the list `coll` of the table, sorted by key. */
  ghost predicate Holds(rows: Rows, coll: Coll, s: seq<Pk>) {
    (forall pk | InList(rows, pk, coll) :: pk in s) &&
    (forall i | 0 <= i < |s| :: InList(rows, s[i], coll) && rows[s[i]].order.At?) &&
    (forall i, j | 0 <= i < j < |s| :: Lt(KeyOf(rows, s[i]), KeyOf(rows, s[j])))
  }

  ghost predicate Represents(rows: Rows, lists: Lists) {
    forall c: Coll :: Holds(rows, c, ListOf(lists, c))
  }

  /** A key that belongs at place i of a sorted list. */
  ghost predicate Fits(rows: Rows, s: seq<Pk>, i: nat, k: Key)
    requires i <= |s| && forall j | 0 <= j < |s| :: s[j] in rows && rows[s[j]].order.At?
  {
    (forall j | 0 <= j < i :: Lt(KeyOf(rows, s[j]), k)) && (forall j | i <= j < |s| :: Lt(k, KeyOf(rows, s[j])))
  }

  lemma PresentInRows(rows: Rows, lists: Lists, pk: Pk)
    requires Represents(rows, lists)
    ensures Present(lists, pk) <==> pk in rows
    ensures pk in rows ==> rows[pk].order.At?
  {
    if pk in rows {
      assert InList(rows, pk, rows[pk].coll);
      assert Holds(rows, rows[pk].coll, ListOf(lists, rows[pk].coll));
    }
    if Present(lists, pk) {
      var c :| pk in ListOf(lists, c);
      assert Holds(rows, c, ListOf(lists, c));
    }
  }

  /** Index j of a list, counted with the place n left out. */
  function Skip(n: nat, j: nat): nat {
    if j < n then j else j + 1
  }

  lemma WithoutIndices(s: seq<Pk>, pk: Pk)
    requires pk in s
    ensures var n, t := IndexOf(s, pk).value, Without(s, pk);
      n < |s| && s[n] == pk && |t| == |s| - 1 && forall j | 0 <= j < |t| :: t[j] == s[Skip(n, j)]
    ensures forall q | q in s && q != pk :: q in Without(s, pk)
  {
    hide IndexOf;
    var n, t := IndexOf(s, pk).value, Without(s, pk);
    forall j | 0 <= j < |t| ensures t[j] == s[Skip(n, j)] {}
    forall q | q in s && q != pk ensures q in t {
      var j :| 0 <= j < |s| && s[j] == q;
      assert t[if j < n then j else j - 1] == q;
    }
  }

  lemma HoldsWithout(rows: Rows, coll: Coll, s: seq<Pk>, pk: Pk)
    requires Holds(rows, coll, s)
    ensures Holds(rows - {pk}, coll, Without(s, pk))
  {
    hide Lt, Without, IndexOf;
    var rest, t := rows - {pk}, Without(s, pk);
    forall q | InList(rest, q, coll) ensures q in s { assert InList(rows, q, coll); }
    if pk in s {
      var n := IndexOf(s, pk).value;
      WithoutIndices(s, pk);
      HoldsDistinct(rows, coll, s);
      forall i | 0 <= i < |t| ensures InList(rest, t[i], coll) && rest[t[i]].order.At? {
        assert InList(rows, s[Skip(n, i)], coll) && s[Skip(n, i)] != s[n];
      }
      forall i, j | 0 <= i < j < |t| ensures Lt(KeyOf(rows, t[i]), KeyOf(rows, t[j])) {
        assert Skip(n, i) < Skip(n, j);
      }
    } else {
      WithoutNone(s, pk);
    }
  }

  lemma WithoutNone(s: seq<Pk>, pk: Pk)
    requires pk !in s
    ensures Without(s, pk) == s
  {
  }

  /** A sorted list has every row once. */
  lemma HoldsDistinct(rows: Rows, coll: Coll, s: seq<Pk>)
    requires Holds(rows, coll, s)
    ensures forall i, j | 0 <= i < |s| && 0 <= j < |s| && i != j :: s[i] != s[j]
  {
    forall i, j | 0 <= i < j < |s| ensures s[i] != s[j] {
      assert Lt(KeyOf(rows, s[i]), KeyOf(rows, s[j]));
      LtIrreflexive(KeyOf(rows, s[i]));
    }
  }

  lemma RepresentsWithout(rows: Rows, lists: Lists, pk: Pk)
    requires Represents(rows, lists)
    ensures Represents(rows - {pk}, WithoutAll(lists, pk))
  {
    forall c ensures Holds(rows - {pk}, c, ListOf(WithoutAll(lists, pk), c)) {
      HoldsWithout(rows, c, ListOf(lists, c), pk);
    }
  }

  lemma InsertedIndices(s: seq<Pk>, i: nat, pk: Pk)
    requires i <= |s|
    ensures var t := InsertedAt(s, i, pk);
      |t| == |s| + 1 && t[i] == pk && (forall j | 0 <= j < |s| :: t[Skip(i, j)] == s[j]) &&
      (forall j | 0 <= j < |t| :: t[j] == if j < i then s[j] else if j == i then pk else s[j - 1])
  {
  }

  lemma InsertedAscending(rows: Rows, coll: Coll, s: seq<Pk>, i: nat, pk: Pk, k: Key)
    requires Holds(rows, coll, s) && i <= |s| && Fits(rows, s, i, k) && pk !in rows
    ensures var after, t := rows[pk := Row(coll, At(k))], InsertedAt(s, i, pk);
      (forall j | 0 <= j < |t| :: InList(after, t[j], coll) && after[t[j]].order.At?) &&
      (forall a, b | 0 <= a < b < |t| :: Lt(KeyOf(after, t[a]), KeyOf(after, t[b])))
  {
    InsertedIndices(s, i, pk);
    hide Lt, InsertedAt;
  }

  lemma HoldsInserted(rows: Rows, coll: Coll, s: seq<Pk>, i: nat, pk: Pk, k: Key)
    requires Holds(rows, coll, s) && i <= |s| && Fits(rows, s, i, k) && pk !in rows
    ensures Holds(rows[pk := Row(coll, At(k))], coll, InsertedAt(s, i, pk))
  {
    var after, t := rows[pk := Row(coll, At(k))], InsertedAt(s, i, pk);
    InsertedIndices(s, i, pk);
    InsertedAscending(rows, coll, s, i, pk, k);
    hide Lt, InsertedAt, Fits;
    forall q | InList(after, q, coll) ensures q in t {
      if q != pk {
        assert InList(rows, q, coll);
        var j :| 0 <= j < |s| && s[j] == q;
        assert t[Skip(i, j)] == q;
      }
    }
  }

  lemma OtherListKept(rows: Rows, coll: Coll, s: seq<Pk>, pk: Pk, row: Row)
    requires Holds(rows, coll, s) && pk !in rows && row.coll != coll
    ensures Holds(rows[pk := row], coll, s)
  {
    forall q | InList(rows[pk := row], q, coll) ensures q in s { assert InList(rows, q, coll); }
  }

  lemma RepresentsInserted(rows: Rows, lists: Lists, coll: Coll, i: nat, pk: Pk, k: Key)
    requires Represents(rows, lists) && pk !in rows
    requires i <= |ListOf(lists, coll)| && Holds(rows, coll, ListOf(lists, coll))
    requires Fits(rows, ListOf(lists, coll), i, k)
    ensures Represents(rows[pk := Row(coll, At(k))], lists[coll := InsertedAt(ListOf(lists, coll), i, pk)])
  {
    var after, lists' := rows[pk := Row(coll, At(k))], lists[coll := InsertedAt(ListOf(lists, coll), i, pk)];
    HoldsInserted(rows, coll, ListOf(lists, coll), i, pk, k);
    hide Holds, InsertedAt, Fits;
    forall c ensures Holds(after, c, ListOf(lists', c)) {
      if c != coll {
        assert Holds(rows, c, ListOf(lists, c));
        OtherListKept(rows, c, ListOf(lists, c), pk, Row(coll, At(k)));
      }
    }
  }

  lemma Members(rows: Rows, lists: Lists, coll: Coll, pk: Pk)
    requires Represents(rows, lists)
    ensures Holds(rows, coll, ListOf(lists, coll))
    ensures pk in ListOf(lists, coll) <==> InList(rows, pk, coll)
  {
    assert Holds(rows, coll, ListOf(lists, coll));
  }

  // ---- One statement ----------------------------------------------------------------------

  /** Every key can be used for a new one. */
  ghost predicate Usable(rows: Rows) {
    forall pk | pk in rows :: rows[pk].order.At? && WfKey(rows[pk].order.key) && Accepted(rows[pk].order.key)
  }

  /** How far n statements can take the keys of a table. */
  ghost predicate Bounded(rows: Rows, n: nat) {
    forall pk | pk in rows :: rows[pk].order.At? && BoundedKey(rows[pk].order.key, n)
  }

  predicate BoundedKey(k: Key, n: nat) {
    WfKey(k) && |k| <= n + 1 && (KeyParts(k); Val(Integer(k)) + n >= 0)
  }

  /** A new key between two bounds taken from the table. */
  lemma KeyFromBounds(a: Option<Key>, b: Option<Key>, n: nat) returns (k: Key)
    requires ValidBound(a) && (a.Some? ==> BoundedKey(a.value, n))
    requires ValidBound(b) && (b.Some? ==> BoundedKey(b.value, n))
    requires a.Some? && b.Some? ==> Lt(a.value, b.value)
    ensures NewKey(a, b) == Ok(k) && Between(k, a, b) && BoundedKey(k, n + 1)
  {
    KeyBetweenCorrect(a, b);
    k := KeyBetween(a, b).value.value;
  }

  lemma ListKeysUsable(rows: Rows, coll: Coll, n: nat)
    requires Usable(rows) && Bounded(rows, n)
    ensures forall k | k in ListKeys(rows, coll) :: WfKey(k) && Accepted(k) && BoundedKey(k, n)
  {
  }

  lemma KeyAtEnd(rows: Rows, coll: Coll, s: seq<Pk>, n: nat) returns (k: Key)
    requires Holds(rows, coll, s) && Usable(rows) && Bounded(rows, n)
    ensures NewKey(Greatest(ListKeys(rows, coll)), None) == Ok(k)
    ensures Fits(rows, s, |s|, k) && BoundedKey(k, n + 1)
  {
    var keys := ListKeys(rows, coll);
    ListKeysUsable(rows, coll, n);
    k := KeyFromBounds(Greatest(keys), None, n);
    forall j | 0 <= j < |s| ensures Lt(KeyOf(rows, s[j]), k) {
      assert KeyOf(rows, s[j]) in keys;
      var g := Greatest(keys).value;
      LtTotal(KeyOf(rows, s[j]), g);
      if KeyOf(rows, s[j]) != g { LtTransitive(KeyOf(rows, s[j]), g, k); }
    }
  }

  lemma KeyAtStart(rows: Rows, coll: Coll, s: seq<Pk>, n: nat) returns (k: Key)
    requires Holds(rows, coll, s) && Usable(rows) && Bounded(rows, n)
    ensures NewKey(None, Least(ListKeys(rows, coll))) == Ok(k)
    ensures Fits(rows, s, 0, k) && BoundedKey(k, n + 1)
  {
    var keys := ListKeys(rows, coll);
    ListKeysUsable(rows, coll, n);
    k := KeyFromBounds(None, Least(keys), n);
    forall j | 0 <= j < |s| ensures Lt(k, KeyOf(rows, s[j])) {
      assert KeyOf(rows, s[j]) in keys;
      var g := Least(keys).value;
      LtTotal(KeyOf(rows, s[j]), g);
      if KeyOf(rows, s[j]) != g { LtTransitive(k, g, KeyOf(rows, s[j])); }
    }
  }

  /** In a sorted list the anchor is the only holder of its key. */
  lemma OneHolder(rows: Rows, coll: Coll, s: seq<Pk>, after: Pk)
    requires Holds(rows, coll, s) && after in s
    ensures Holders(rows, coll, KeyOf(rows, after)) == {after}
  {
    forall pk | pk in Holders(rows, coll, KeyOf(rows, after)) ensures pk == after {
      assert InList(rows, pk, coll);
      var i :| 0 <= i < |s| && s[i] == pk;
      var j :| 0 <= j < |s| && s[j] == after;
      LtIrreflexive(KeyOf(rows, after));
    }
  }

  /** The key made behind an anchor, with or without the moved row in the list. */
  lemma KeyBehind(rows: Rows, coll: Coll, s: seq<Pk>, after: Pk, pk: Pk, n: nat) returns (k: Key)
    requires Usable(rows) && Bounded(rows, n)
    requires Holds(rows - {pk}, coll, s) && after in s
    ensures after in rows
    ensures NewKey(Some(KeyOf(rows, after)), Least(KeysAbove(rows, coll, KeyOf(rows, after)))) == Ok(k)
    ensures Fits(rows - {pk}, s, IndexOf(s, after).value + 1, k) && BoundedKey(k, n + 1)
  {
    var i := IndexOf(s, after).value;
    var rest := rows - {pk};
    var target := KeyOf(rows, after);
    var above := KeysAbove(rows, coll, target);
    ListKeysUsable(rows, coll, n);
    k := KeyFromBounds(Some(target), Least(above), n);
    forall j | 0 <= j < i ensures Lt(KeyOf(rest, s[j]), k) {
      LtTransitive(KeyOf(rest, s[j]), KeyOf(rest, s[i]), k);
    }
    forall j | i < j < |s| ensures Lt(k, KeyOf(rest, s[j])) {
      var key := KeyOf(rest, s[j]);
      assert Lt(KeyOf(rest, s[i]), key);
      assert key in above;
      var g := Least(above).value;
      LtTotal(key, g);
      if key != g { LtTransitive(k, g, key); }
    }
  }

  /** While a row asks for an end of its list it has no key there. */
  lemma AskingRow(rows: Rows, pk: Pk, row: Row, coll: Coll)
    requires !row.order.At?
    ensures ListKeys(rows[pk := row], coll) == ListKeys(rows - {pk}, coll)
  {
    var asked, rest := rows[pk := row], rows - {pk};
    forall k | k in ListKeys(asked, coll) ensures k in ListKeys(rest, coll) {
      var q :| q in asked && asked[q].coll == coll && asked[q].order == At(k);
      assert q in rest && rest[q] == asked[q];
    }
    forall k | k in ListKeys(rest, coll) ensures k in ListKeys(asked, coll) {
      var q :| q in rest && rest[q].coll == coll && rest[q].order == At(k);
      assert q in asked && rest[q] == asked[q];
    }
  }

  lemma StoreAsking(rows: Rows, pk: Pk, coll: Coll, k: Key)
    ensures NewKey(Greatest(ListKeys(rows - {pk}, coll)), None) == Ok(k) ==>
      Store(rows, pk, Row(coll, Back)) == Ok(rows[pk := Row(coll, At(k))])
    ensures NewKey(None, Least(ListKeys(rows - {pk}, coll))) == Ok(k) ==>
      Store(rows, pk, Row(coll, Front)) == Ok(rows[pk := Row(coll, At(k))])
  {
    AskingRow(rows, pk, Row(coll, Back), coll);
    AskingRow(rows, pk, Row(coll, Front), coll);
    assert rows[pk := Row(coll, Back)][pk := Row(coll, At(k))] == rows[pk := Row(coll, At(k))];
    assert rows[pk := Row(coll, Front)][pk := Row(coll, At(k))] == rows[pk := Row(coll, At(k))];
  }

  /** The key a statement gives its row at an end of the list. */
  lemma EndKey(rows: Rows, lists: Lists, op: Op, n: nat) returns (k: Key)
    requires Usable(rows) && Bounded(rows, n) && (op.IsInsert() <==> op.pk !in rows)
    requires var s := ListOf(WithoutAll(lists, op.pk), op.coll);
      Holds(rows - {op.pk}, op.coll, s) &&
      (op.InsertAfter? || op.MoveAfter? ==> op.after !in rows && op.after !in s)
    ensures Exec(rows, op) == Ok(rows[op.pk := Row(op.coll, At(k))]) && BoundedKey(k, n + 1)
    ensures var s := ListOf(WithoutAll(lists, op.pk), op.coll);
      Fits(rows - {op.pk}, s, Position(s, op), k)
  {
    var rest, s := rows - {op.pk}, ListOf(WithoutAll(lists, op.pk), op.coll);
    hide Holds, Fits, Store, BoundedKey;
    if op.Append? || op.MoveToEnd? {
      k := KeyAtEnd(rest, op.coll, s, n);
    } else {
      k := KeyAtStart(rest, op.coll, s, n);
    }
    StoreAsking(rows, op.pk, op.coll, k);
  }

  /** The key a statement gives its row behind an anchor. */
  lemma AnchoredKey(rows: Rows, lists: Lists, op: Op, n: nat) returns (k: Key)
    requires op.InsertAfter? || op.MoveAfter?
    requires Usable(rows) && Bounded(rows, n) && (op.IsInsert() <==> op.pk !in rows)
    requires Holds(rows, op.coll, ListOf(lists, op.coll)) && op.after in ListOf(lists, op.coll)
    requires Holds(rows - {op.pk}, op.coll, ListOf(WithoutAll(lists, op.pk), op.coll)) && op.after != op.pk
    ensures Exec(rows, op) == Ok(rows[op.pk := Row(op.coll, At(k))]) && BoundedKey(k, n + 1)
    ensures var s := ListOf(WithoutAll(lists, op.pk), op.coll);
      Fits(rows - {op.pk}, s, Position(s, op), k)
  {
    var full, s := ListOf(lists, op.coll), ListOf(WithoutAll(lists, op.pk), op.coll);
    if op.pk in full { WithoutIndices(full, op.pk); }
    OneHolder(rows, op.coll, full, op.after);
    hide Holds, Fits, BoundedKey, Holders, WfKey, Accepted;
    k := KeyBehind(rows, op.coll, s, op.after, op.pk, n);
    assert PlaceAfter(rows, op.coll, op.after) == Ok((rows, At(k)));
  }

  lemma BoundedStore(rows: Rows, pk: Pk, coll: Coll, k: Key, n: nat)
    requires Bounded(rows, n) && BoundedKey(k, n + 1)
    ensures Bounded(rows[pk := Row(coll, At(k))], n + 1)
  {
  }

  /** The key a statement gives its row. */
  lemma StepKey(rows: Rows, lists: Lists, op: Op, n: nat) returns (k: Key)
    requires Represents(rows, lists) && Usable(rows) && Bounded(rows, n) && Legal(lists, op)
    requires op.IsInsert() <==> op.pk !in rows
    ensures Exec(rows, op) == Ok(rows[op.pk := Row(op.coll, At(k))]) && BoundedKey(k, n + 1)
    ensures var s := ListOf(WithoutAll(lists, op.pk), op.coll);
      Holds(rows - {op.pk}, op.coll, s) && Fits(rows - {op.pk}, s, Position(s, op), k)
  {
    var rest, lists' := rows - {op.pk}, WithoutAll(lists, op.pk);
    RepresentsWithout(rows, lists, op.pk);
    hide Exec, Holds, Fits, Represents, BoundedKey, Bounded, Usable, WithoutAll, Position;
    Members(rest, lists', op.coll, op.pk);
    Members(rows, lists, op.coll, op.pk);
    if op.InsertAfter? || op.MoveAfter? {
      PresentInRows(rows, lists, op.after);
      Members(rest, lists', op.coll, op.after);
    }
    if (op.InsertAfter? || op.MoveAfter?) && op.after in ListOf(lists, op.coll) {
      k := AnchoredKey(rows, lists, op, n);
    } else {
      k := EndKey(rows, lists, op, n);
    }
  }

  lemma PlainEffective(lists: Lists, op: Op)
    requires op.IsInsert() || Present(lists, op.pk)
    ensures var rest := WithoutAll(lists, op.pk);
      var s := ListOf(rest, op.coll);
      Plain(lists, op) == rest[op.coll := InsertedAt(s, Position(s, op), op.pk)]
  {
  }

  lemma EffectiveStep(rows: Rows, lists: Lists, op: Op, n: nat) returns (after: Rows)
    requires Represents(rows, lists) && Usable(rows) && Bounded(rows, n) && Legal(lists, op)
    requires op.IsInsert() <==> op.pk !in rows
    requires op.IsInsert() || Present(lists, op.pk)
    ensures Exec(rows, op) == Ok(after)
    ensures Represents(after, Plain(lists, op)) && Bounded(after, n + 1)
  {
    hide Exec, Holds, Fits, InsertedAt, Represents, BoundedKey, Bounded, WithoutAll, Position, Plain, Legal, Usable;
    var rest, lists' := rows - {op.pk}, WithoutAll(lists, op.pk);
    var s := ListOf(lists', op.coll);
    RepresentsWithout(rows, lists, op.pk);
    var k := StepKey(rows, lists, op, n);
    PlainEffective(lists, op);
    RepresentsInserted(rest, lists', op.coll, Position(s, op), op.pk, k);
    BoundedStore(rows, op.pk, op.coll, k, n);
    after := rows[op.pk := Row(op.coll, At(k))];
    assert rest[op.pk := Row(op.coll, At(k))] == after;
  }

  /** One statement on a usable table does to its sorted lists what it says, and makes at most
      one key, inside the bounds of one more statement. */
  lemma StepRefines(rows: Rows, lists: Lists, op: Op, n: nat) returns (after: Rows)
    requires Represents(rows, lists) && Usable(rows) && Bounded(rows, n) && Legal(lists, op)
    ensures Exec(rows, op) == Ok(after)
    ensures Represents(after, Plain(lists, op)) && Bounded(after, n + 1)
  {
    after := rows;
    PresentInRows(rows, lists, op.pk);
    if op.IsInsert() || op.pk in rows { after := EffectiveStep(rows, lists, op, n); }
  }

  // ---- Runs -------------------------------------------------------------------------------

  function Run(rows: Rows, ops: seq<Op>): Outcome<Rows>
    decreases |ops|
  {
    if ops == [] then Ok(rows) else
      var next :- Exec(rows, ops[0]);
      Run(next, ops[1..])
  }

  ghost function PlainRun(lists: Lists, ops: seq<Op>): Lists
    decreases |ops|
  {
    if ops == [] then lists else PlainRun(Plain(lists, ops[0]), ops[1..])
  }

  ghost predicate LegalRun(lists: Lists, ops: seq<Op>)
    decreases |ops|
  {
    ops == [] || (Legal(lists, ops[0]) && LegalRun(Plain(lists, ops[0]), ops[1..]))
  }

  /** Before every statement all keys of the table can be used. */
  ghost predicate UsableRun(rows: Rows, ops: seq<Op>)
    decreases |ops|
  {
    Usable(rows) && (ops != [] && Exec(rows, ops[0]).Ok? ==> UsableRun(Exec(rows, ops[0]).value, ops[1..]))
  }

  lemma {:induction false} BoundExists(rows: Rows) returns (n: nat)
    requires Usable(rows)
    ensures Bounded(rows, n)
  {
    if rows == map[] { return 0; }
    var pk :| pk in rows;
    var rest := rows - {pk};
    n := BoundExists(rest);
    var k := rows[pk].order.key;
    KeyParts(k);
    var v := Val(Integer(k));
    n := n + |k| + if v < 0 then -v else 0;
    forall q | q in rows ensures BoundedKey(rows[q].order.key, n) {
      assert q != pk ==> q in rest && rest[q] == rows[q];
    }
  }

  /** Runs of any length: while the keys stay usable, no statement fails and sorting by key
      gives the plain lists. */
  lemma {:induction false} RunRefines(rows: Rows, lists: Lists, ops: seq<Op>)
    requires Represents(rows, lists) && LegalRun(lists, ops) && UsableRun(rows, ops)
    ensures Run(rows, ops).Ok? && Represents(Run(rows, ops).value, PlainRun(lists, ops))
    decreases |ops|
  {
    hide Exec, Represents, Legal, Plain, Usable, Bounded;
    if ops != [] {
      var n := BoundExists(rows);
      var after := StepRefines(rows, lists, ops[0], n);
      RunRefines(after, Plain(lists, ops[0]), ops[1..]);
    }
  }

  /** Keys made by at most 254 statements are usable: short enough, and far above the reserved key. */
  lemma BoundedUsable(rows: Rows, n: nat)
    requires Bounded(rows, n) && n <= 254
    ensures Usable(rows)
  {
    LowInteger();
    forall pk | pk in rows ensures Accepted(rows[pk].order.key) {
      var k := rows[pk].order.key;
      if k == SMALLEST_INTEGER {
        ValRange("Y00");
        IntegerKey(SMALLEST_INTEGER);
      }
      ShortKeysAccepted(k);
    }
  }

  lemma LowInteger()
    ensures WfInteger("Y00") && Val("Y00") == -3906
  {
    var digs := "Y00"[1..];
    assert digs == "00" && digs[..1] == "0" && digs[..1][..0] == "";
    assert Num("0") == 0 && Num(digs) == 0;
    assert Offset(2) == 3906;
  }

  lemma {:induction false} ShortRunUsable(rows: Rows, lists: Lists, ops: seq<Op>, n: nat)
    requires Represents(rows, lists) && LegalRun(lists, ops) && Bounded(rows, n) && n + |ops| <= 254
    ensures UsableRun(rows, ops)
    ensures Run(rows, ops).Ok? ==> Bounded(Run(rows, ops).value, n + |ops|)
    decreases |ops|
  {
    hide Exec, Represents, Legal, Plain, Usable, Bounded;
    BoundedUsable(rows, n);
    if ops != [] {
      var after := StepRefines(rows, lists, ops[0], n);
      ShortRunUsable(after, Plain(lists, ops[0]), ops[1..], n + 1);
    }
  }

  /** Starting from an empty table, every run of at most 254 appends, prepends, inserts and
      moves succeeds, keeps every key usable and the keys of a list distinct, and sorting by
      key gives exactly the lists the statements describe. */
  lemma RunRefinesLists(ops: seq<Op>)
    requires |ops| <= 254 && LegalRun(map[], ops)
    ensures Run(map[], ops).Ok?
    ensures Represents(Run(map[], ops).value, PlainRun(map[], ops))
    ensures Usable(Run(map[], ops).value)
  {
    var lists: Lists := map[];
    assert Represents(map[], lists);
    ShortRunUsable(map[], lists, ops, 0);
    RunRefines(map[], lists, ops);
    BoundedUsable(Run(map[], ops).value, |ops|);
  }
}
