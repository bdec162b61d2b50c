/** Ordered lists over fractional keys: the triggers that append, prepend, insert after and
    move after, and the repair of colliding keys. */
module OrderedTable {
  import opened Wrappers
  import opened ByteOrder
  import opened FractIndex

  type Pk = string
  type Coll = string

  /** The order column: -1 and 1 ask the triggers for the front and the back of the list. */
  datatype Order = Front | Back | At(key: Key)

  /** A row: the list it belongs to (its collection columns) and its place in the list. */
  datatype Row = Row(coll: Coll, order: Order)

  type Rows = map<Pk, Row>

  // ---- Selections -------------------------------------------------------------------------

  predicate InList(rows: Rows, pk: Pk, coll: Coll) {
    pk in rows && rows[pk].coll == coll
  }

  function ListKeys(rows: Rows, coll: Coll): set<Key> {
    set pk | pk in rows && rows[pk].coll == coll && rows[pk].order.At? :: rows[pk].order.key
  }

  function KeysAbove(rows: Rows, coll: Coll, key: Key): set<Key> {
    set k | k in ListKeys(rows, coll) && Lt(key, k)
  }

  function KeysBelow(rows: Rows, coll: Coll, key: Key): set<Key> {
    set k | k in ListKeys(rows, coll) && Lt(k, key)
  }

  /** The rows of a list that hold one key. */
  function Holders(rows: Rows, coll: Coll, key: Key): set<Pk> {
    set pk | pk in rows && rows[pk].coll == coll && rows[pk].order == At(key)
  }

  predicate IsLeast(k: Key, keys: set<Key>) {
    k in keys && forall j | j in keys :: !Lt(j, k)
  }

  predicate IsGreatest(k: Key, keys: set<Key>) {
    k in keys && forall j | j in keys :: !Lt(k, j)
  }

  lemma {:induction false} ExtremesExist(keys: set<Key>)
    requires keys != {}
    ensures exists k :: IsLeast(k, keys)
    ensures exists k :: IsGreatest(k, keys)
  {
    var x :| x in keys;
    LtIrreflexive(x);
    var rest := keys - {x};
    if rest == {} {
      assert keys == {x};
      assert IsLeast(x, keys) && IsGreatest(x, keys);
    } else {
      ExtremesExist(rest);
      var lo :| IsLeast(lo, rest);
      var hi :| IsGreatest(hi, rest);
      assert keys == rest + {x};
      if Lt(x, lo) {
        LtAsymmetric(x, lo);
        forall j | j in rest ensures !Lt(j, x) { if Lt(j, x) { LtTransitive(j, x, lo); } }
        assert IsLeast(x, keys);
      } else {
        assert IsLeast(lo, keys);
      }
      if Lt(hi, x) {
        LtAsymmetric(hi, x);
        forall j | j in rest ensures !Lt(x, j) { if Lt(x, j) { LtTransitive(hi, x, j); } }
        assert IsGreatest(x, keys);
      } else {
        assert IsGreatest(hi, keys);
      }
    }
  }

  lemma ExtremesUnique(keys: set<Key>)
    ensures forall j, k :: IsLeast(j, keys) && IsLeast(k, keys) ==> j == k
    ensures forall j, k :: IsGreatest(j, keys) && IsGreatest(k, keys) ==> j == k
  {
    forall j, k | j in keys && k in keys ensures j == k || Lt(j, k) || Lt(k, j) { LtTotal(j, k); }
  }

  /** `SELECT MIN(key)`, or the first key in ascending order: NULL for no rows. */
  function Least(keys: set<Key>): (r: Option<Key>)
    ensures if keys == {} then r == None else r.Some? && IsLeast(r.value, keys)
  {
    if keys == {} then None else
      ExtremesExist(keys);
      ExtremesUnique(keys);
      var k :| k in keys && IsLeast(k, keys);
      Some(k)
  }

  function Greatest(keys: set<Key>): (r: Option<Key>)
    ensures if keys == {} then r == None else r.Some? && IsGreatest(r.value, keys)
  {
    if keys == {} then None else
      ExtremesExist(keys);
      ExtremesUnique(keys);
      var k :| k in keys && IsGreatest(k, keys);
      Some(k)
  }

  // ---- Triggers ---------------------------------------------------------------------------

  /** A new key, or the error of `crsql_fract_key_between`. */
  function NewKey(a: Option<Key>, b: Option<Key>): Outcome<Key> {
    var k :- KeyBetween(a, b);
    if k.None? then Err("NULL key") else Ok(k.value)
  }

  /** The AFTER INSERT and AFTER UPDATE triggers: a row asking for an end of its list gets a key there. */
  function Pend(rows: Rows, pk: Pk): Outcome<Rows>
    requires pk in rows
  {
    match rows[pk].order
    case At(_) => Ok(rows)
    case Front =>
      var k :- NewKey(None, Least(ListKeys(rows, rows[pk].coll)));
      Ok(rows[pk := rows[pk].(order := At(k))])
    case Back =>
      var k :- NewKey(Greatest(ListKeys(rows, rows[pk].coll)), None);
      Ok(rows[pk := rows[pk].(order := At(k))])
  }

  /** Writes a row of the base table and runs its trigger. */
  function Store(rows: Rows, pk: Pk, row: Row): Outcome<Rows> {
    Pend(rows[pk := row], pk)
  }

  /** `fix_conflict_return_oldKey`: moves the anchor down below its own key and hands out that key. */
  function FixConflict(rows: Rows, after: Pk): Outcome<Rows>
    requires after in rows && rows[after].order.At?
  {
    var target := rows[after].order.key;
    var k :- NewKey(Greatest(KeysBelow(rows, rows[after].coll, target)), Some(target));
    Ok(rows[after := rows[after].(order := At(k))])
  }

  /** The CASE expression of the view triggers: the place right after the anchor, and the table
      once collisions at the anchor are repaired. */
  function PlaceAfter(rows: Rows, coll: Coll, after: Pk): Outcome<(Rows, Order)> {
    if after !in rows || !rows[after].order.At? then Ok((rows, Front)) else
      var target := rows[after].order.key;
      var count := |Holders(rows, coll, target)|;
      if count == 1 then
        var k :- NewKey(Some(target), Least(KeysAbove(rows, coll, target)));
        Ok((rows, At(k)))
      else if count == 0 then Ok((rows, Front))
      else
        var fixed :- FixConflict(rows, after);
        Ok((fixed, At(target)))
  }

  datatype Op =
    | Append(pk: Pk, coll: Coll)
    | Prepend(pk: Pk, coll: Coll)
    | InsertAfter(pk: Pk, coll: Coll, after: Pk)
    | MoveToEnd(pk: Pk, coll: Coll)
    | MoveToStart(pk: Pk, coll: Coll)
    | MoveAfter(pk: Pk, coll: Coll, after: Pk)
  {
    predicate IsInsert() { Append? || Prepend? || InsertAfter? }
  }

  /** One statement against the table or its view; on an error the table keeps its rows. */
  function Exec(rows: Rows, op: Op): Outcome<Rows> {
    if op.IsInsert() && op.pk in rows then Err("UNIQUE constraint failed")
    else if !op.IsInsert() && op.pk !in rows then Ok(rows)
    else
      match op
      case Append(pk, coll) => Store(rows, pk, Row(coll, Back))
      case MoveToEnd(pk, coll) => Store(rows, pk, Row(coll, Back))
      case Prepend(pk, coll) => Store(rows, pk, Row(coll, Front))
      case MoveToStart(pk, coll) => Store(rows, pk, Row(coll, Front))
      case InsertAfter(pk, coll, after) => StoreAfter(rows, pk, coll, after)
      case MoveAfter(pk, coll, after) => StoreAfter(rows, pk, coll, after)
  }

  function StoreAfter(rows: Rows, pk: Pk, coll: Coll, after: Pk): Outcome<Rows> {
    var (fixed, order) :- PlaceAfter(rows, coll, after);
    Store(fixed, pk, Row(coll, order))
  }

  /** The table itself: statements and the triggers they fire update its rows in place. */
  class Table {
    var rows: Rows

    constructor ()
      ensures rows == map[]
    {
      rows := map[];
    }

    /** The pend and easy-move triggers, after `pk` was written. */
    method PendTrigger(pk: Pk) returns (r: Outcome<()>)
      requires pk in rows
      modifies this
      ensures match Pend(old(rows), pk)
              case Ok(after) => r == Ok(()) && rows == after
              case _ => r.IsFailure() && rows == old(rows)
    {
      var row := rows[pk];
      var k;
      match row.order {
        case At(_) => return Ok(());
        case Front => k := NewKey(None, Least(ListKeys(rows, row.coll)));
        case Back => k := NewKey(Greatest(ListKeys(rows, row.coll)), None);
      }
      if k.IsFailure() { return k.PropagateFailure(); }
      rows := rows[pk := row.(order := At(k.value))];
      return Ok(());
    }

    /** `crsql_fract_fix_conflict_return_oldKey` */
    method FixConflictReturnOldKey(after: Pk) returns (r: Outcome<Key>)
      requires after in rows && rows[after].order.At?
      modifies this
      ensures match FixConflict(old(rows), after)
              case Ok(fixed) => r == Ok(old(rows[after].order.key)) && rows == fixed
              case _ => r.IsFailure() && rows == old(rows)
    {
      var row := rows[after];
      var target := row.order.key;
      var k := NewKey(Greatest(KeysBelow(rows, row.coll, target)), Some(target));
      if k.IsFailure() { return k.PropagateFailure(); }
      rows := rows[after := row.(order := At(k.value))];
      return Ok(target);
    }

    /** Runs one statement; a failed statement is rolled back. */
    method Execute(op: Op) returns (r: Outcome<()>)
      modifies this
      ensures match Exec(old(rows), op)
              case Ok(after) => r == Ok(()) && rows == after
              case _ => r.IsFailure() && rows == old(rows)
    {
      if op.IsInsert() && op.pk in rows { return Err("UNIQUE constraint failed"); }
      if !op.IsInsert() && op.pk !in rows { return Ok(()); }
      var before := rows;
      var order;
      match op {
        case Append(_, _) => order := Back;
        case MoveToEnd(_, _) => order := Back;
        case Prepend(_, _) => order := Front;
        case MoveToStart(_, _) => order := Front;
        case _ =>
          var placed := Place(op.coll, op.after);
          if placed.IsFailure() { return placed.PropagateFailure(); }
          order := placed.value;
      }
      rows := rows[op.pk := Row(op.coll, order)];
      r := PendTrigger(op.pk);
      if r.IsFailure() { rows := before; }
    }

    /** The CASE expression of the view triggers. */
    method Place(coll: Coll, after: Pk) returns (r: Outcome<Order>)
      modifies this
      ensures match PlaceAfter(old(rows), coll, after)
              case Ok((fixed, order)) => r == Ok(order) && rows == fixed
              case _ => r.IsFailure() && rows == old(rows)
    {
      if after !in rows || !rows[after].order.At? { return Ok(Front); }
      var target := rows[after].order.key;
      var count := |Holders(rows, coll, target)|;
      if count == 1 {
        var k := NewKey(Some(target), Least(KeysAbove(rows, coll, target)));
        if k.IsFailure() { return k.PropagateFailure(); }
        return Ok(At(k.value));
      } else if count == 0 {
        return Ok(Front);
      }
      var oldKey := FixConflictReturnOldKey(after);
      if oldKey.IsFailure() { return oldKey.PropagateFailure(); }
      return Ok(At(oldKey.value));
    }
  }
}
