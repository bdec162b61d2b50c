/** Fractional index keys: an integer part followed by a fraction, and `key_between`, which
    makes a new key strictly between two others. */
module FractIndex {
  import opened Wrappers
  import opened ByteOrder
  import opened Base62
  import opened IntegerPart
  import opened Midpoint

  type Key = string

  /** `get_integer_part`: the length of the key is compared as a `u8`. */
  function GetIntegerPart(key: Key): (r: Outcome<string>)
    ensures r.Ok? ==> r.value <= key
  {
    if key == "" then Panic else
      var n :- IntegerLen(key[0]);
      if n > |key| % 256 then Err("integer part of key is too long") else Ok(key[..n])
  }

  /** `validate_order_key` */
  function ValidateOrderKey(key: Key): Outcome<()> {
    if key == SMALLEST_INTEGER then Err("Key is too small") else
      var i :- GetIntegerPart(key);
      if EndsInZero(key[|i|..]) then Err("Integer part should not end with 0") else Ok(())
  }

  function ValidateBound(key: Option<Key>): Outcome<()> {
    if key.Some? then ValidateOrderKey(key.value) else Ok(())
  }

  /** `key_between`; None stands for an open end. */
  function KeyBetween(a: Option<Key>, b: Option<Key>): Outcome<Option<Key>> {
    var _ :- ValidateBound(a);
    var _ :- ValidateBound(b);
    match (a, b)
    case (None, None) => Ok(Some(INTEGER_ZERO))
    case (Some(a), Some(b)) =>
      if Lt(b, a) then Err("key_between - a must be before b") else
        var ia :- GetIntegerPart(a);
        var ib :- GetIntegerPart(b);
        if ia == ib then
          var m :- Mid(a[|ia|..], Some(b[|ib|..]));
          Ok(Some(ia + m))
        else
          var i :- Increment(ia);
          if i.None? then Err("Cannot increment anymore")
          else if Lt(i.value, b) then Ok(i)
          else
            var m :- Mid(a[|ia|..], None);
            Ok(Some(ia + m))
    case (None, Some(b)) =>
      var ib :- GetIntegerPart(b);
      if ib == SMALLEST_INTEGER then
        var m :- Mid("", Some(b[|ib|..]));
        Ok(Some(ib + m))
      else if Lt(ib, b) then Ok(Some(ib))
      else
        var res :- Decrement(ib);
        if res.Some? then Ok(res) else Err("cannot decrement anymore")
    case (Some(a), None) =>
      var ia :- GetIntegerPart(a);
      var i :- Increment(ia);
      if i.Some? then Ok(i) else
        var m :- Mid(a[|ia|..], None);
        Ok(Some(ia + m))
  }

  // ---- Well-formed keys -------------------------------------------------------------------

  predicate WfKey(k: Key) {
    k != "" && IntegerLen(k[0]).Ok? && IntegerLen(k[0]).value <= |k| && IsBase62(k) && !EndsInZero(Fraction(k))
  }

  function Integer(k: Key): string
    requires k != "" && IntegerLen(k[0]).Ok? && IntegerLen(k[0]).value <= |k|
  {
    k[..IntegerLen(k[0]).value]
  }

  function Fraction(k: Key): string
    requires k != "" && IntegerLen(k[0]).Ok? && IntegerLen(k[0]).value <= |k|
  {
    k[IntegerLen(k[0]).value..]
  }

  /** The keys the validation lets through: the smallest integer alone is reserved, and the
      length of the key, as a `u8`, has to cover its integer part. */
  predicate Accepted(k: Key)
    requires WfKey(k)
  {
    k != SMALLEST_INTEGER && |Integer(k)| <= |k| % 256
  }

  predicate ValidBound(k: Option<Key>) {
    k.Some? ==> WfKey(k.value) && Accepted(k.value)
  }

  predicate Between(k: Key, a: Option<Key>, b: Option<Key>) {
    (a.Some? ==> Lt(a.value, k)) && (b.Some? ==> Lt(k, b.value))
  }

  lemma KeyParts(k: Key)
    requires WfKey(k)
    ensures WfInteger(Integer(k)) && IsFraction(Fraction(k)) && k == Integer(k) + Fraction(k)
    ensures GetIntegerPart(k) ==
      if |Integer(k)| <= |k| % 256 then Ok(Integer(k)) else Err("integer part of key is too long")
  {
  }

  lemma KeyJoin(i: string, f: string)
    requires WfInteger(i) && IsFraction(f)
    ensures WfKey(i + f) && Integer(i + f) == i && Fraction(i + f) == f
  {
    assert (i + f)[0] == i[0];
    assert (i + f)[|i|..] == f;
  }

  /** Keys are ordered by integer part, then by fraction. */
  lemma KeyOrder(a: Key, b: Key)
    requires WfKey(a) && WfKey(b)
    ensures Lt(a, b) <==> Lt(Integer(a), Integer(b)) || (Integer(a) == Integer(b) && Lt(Fraction(a), Fraction(b)))
  {
    KeyParts(a);
    KeyParts(b);
    var ia, ib, fa, fb := Integer(a), Integer(b), Fraction(a), Fraction(b);
    hide Lt, WfInteger, Integer, Fraction;
    if ia == ib {
      LtCommonPrefix(ia, fa, fb);
      LtIrreflexive(ia);
    } else {
      if ia <= ib { PrefixFree(ia, ib); }
      if ib <= ia { PrefixFree(ib, ia); }
      LtTotal(ia, ib);
      if Lt(ia, ib) {
        LtExtend(ia, ib, fa, fb);
      } else {
        LtExtend(ib, ia, fb, fa);
        LtAsymmetric(b, a);
      }
    }
  }

  // ---- key_between is correct and total ---------------------------------------------------

  function LongestBound(a: Option<Key>, b: Option<Key>): nat {
    var la, lb := if a.Some? then |a.value| else 1, if b.Some? then |b.value| else 1;
    if la < lb then lb else la
  }

  /** The least integer part a new key can get: one below an upper neighbour when nothing is below. */
  function Floor(a: Option<Key>, b: Option<Key>): int
    requires ValidBound(a) && ValidBound(b)
  {
    if a.Some? then Val(Integer(a.value))
    else if b.Some? then Val(Integer(b.value)) - 1
    else 0
  }

  /** What a new key is: well formed, strictly between its neighbours, at most one byte longer
      than the longer one, and at most one integer below them. */
  predicate IsNewKey(k: Key, a: Option<Key>, b: Option<Key>)
    requires ValidBound(a) && ValidBound(b)
  {
    WfKey(k) && Between(k, a, b) && |k| <= LongestBound(a, b) + 1 && Val(Integer(k)) >= Floor(a, b)
  }

  predicate Makes(r: Outcome<Option<Key>>, a: Option<Key>, b: Option<Key>)
    requires ValidBound(a) && ValidBound(b)
  {
    r.Ok? && r.value.Some? && IsNewKey(r.value.value, a, b)
  }

  lemma ValidKeyValidates(k: Key)
    requires WfKey(k)
    ensures Accepted(k) <==> ValidateOrderKey(k).Ok?
    ensures Accepted(k) ==> GetIntegerPart(k) == Ok(Integer(k))
  {
    KeyParts(k);
  }

  /** How long the head letter says the integer part is. */
  function HeadLength(head: char): int {
    if 'a' <= head <= 'z' then head as int - 'a' as int + 2 else 'Z' as int - head as int + 2
  }

  /** Exactly which strings the validation lets through: any with a letter as its head, long enough as
      a `u8`, and no zero at the end of a fraction. It does not look at any other character, so that a
      key it lets through is well formed if and only if all of it are digits. */
  lemma ValidatesIff(k: string)
    ensures ValidateOrderKey(k).Panic? <==> k == ""
    ensures ValidateOrderKey(k).Ok? <==>
      k != "" && ('a' <= k[0] <= 'z' || 'A' <= k[0] <= 'Z') && k != SMALLEST_INTEGER &&
      HeadLength(k[0]) <= |k| % 256 && (|k| > HeadLength(k[0]) ==> k[|k| - 1] != '0')
    ensures ValidateOrderKey(k).Ok? ==> (WfKey(k) <==> IsBase62(k))
    ensures WfKey(k) ==> (ValidateOrderKey(k).Ok? <==> Accepted(k))
  {
    hide IsBase62;
    if k != "" && IntegerLen(k[0]).Ok? && IntegerLen(k[0]).value <= |k| {
      var n := IntegerLen(k[0]).value;
      assert |k[n..]| == |k| - n && (|k| > n ==> k[n..][|k| - n - 1] == k[|k| - 1]);
    }
  }

  /** Such as this one. */
  lemma NoDigitValidates()
    ensures ValidateOrderKey("a!").Ok? && !WfKey("a!")
  {
    ValidatesIff("a!");
    assert Find("a!"[1]).None?;
  }

  /** An integer part alone is a key. */
  lemma IntegerKey(i: string)
    requires WfInteger(i)
    ensures WfKey(i) && Integer(i) == i && Fraction(i) == ""
  {
    KeyJoin(i, "");
    assert i + "" == i;
  }

  lemma SameIntegerKey(a: Key, b: Key)
    requires WfKey(a) && WfKey(b) && Accepted(a) && Accepted(b) && Lt(a, b) && Integer(a) == Integer(b)
    ensures Makes(KeyBetween(Some(a), Some(b)), Some(a), Some(b))
  {
    var i, fa, fb := Integer(a), Fraction(a), Fraction(b);
    ValidKeyValidates(a);
    ValidKeyValidates(b);
    KeyParts(a);
    KeyParts(b);
    LtAsymmetric(a, b);
    KeyOrder(a, b);
    LtIrreflexive(i);
    MidCorrect(fa, Some(fb));
    var m := Mid(fa, Some(fb)).value;
    assert KeyBetween(Some(a), Some(b)) == Ok(Some(i + m));
    KeyJoin(i, m);
    KeyOrder(a, i + m);
    KeyOrder(i + m, b);
  }

  /** A key behind a inside the integer part of a. */
  lemma AppendedKey(a: Key)
    requires WfKey(a)
    ensures var m := Mid(Fraction(a), None);
      m.Ok? && WfKey(Integer(a) + m.value) && Integer(Integer(a) + m.value) == Integer(a) &&
      Lt(a, Integer(a) + m.value) && |Integer(a) + m.value| <= |a| + 1
  {
    KeyParts(a);
    MidCorrect(Fraction(a), None);
    var k := Integer(a) + Mid(Fraction(a), None).value;
    KeyJoin(Integer(a), Mid(Fraction(a), None).value);
    KeyOrder(a, k);
  }

  lemma OtherIntegerKey(a: Key, b: Key)
    requires WfKey(a) && WfKey(b) && Accepted(a) && Accepted(b) && Lt(a, b) && Integer(a) != Integer(b)
    ensures Makes(KeyBetween(Some(a), Some(b)), Some(a), Some(b))
  {
    hide Val, WfInteger, Increment, ValidateOrderKey, Mid, IsBase62;
    var ia, ib := Integer(a), Integer(b);
    ValidKeyValidates(a);
    ValidKeyValidates(b);
    KeyParts(a);
    KeyParts(b);
    LtAsymmetric(a, b);
    KeyOrder(a, b);
    ValOrder(ia, ib);
    IncrementCorrect(ia);
    ValRange(ib);
    StepEnds(ia);
    var i := Increment(ia).value.value;
    IntegerKey(i);
    ValOrder(ia, i);
    KeyOrder(a, i);
    if !Lt(i, b) {
      AppendedKey(a);
      var k := ia + Mid(Fraction(a), None).value;
      KeyOrder(k, b);
      assert KeyBetween(Some(a), Some(b)) == Ok(Some(k));
    }
  }

  lemma LastKey(a: Key)
    requires WfKey(a) && Accepted(a)
    ensures Makes(KeyBetween(Some(a), None), Some(a), None)
  {
    var ia := Integer(a);
    ValidKeyValidates(a);
    KeyParts(a);
    IncrementCorrect(ia);
    AppendedKey(a);
    if Increment(ia).value.Some? {
      var i := Increment(ia).value.value;
      IntegerKey(i);
      ValOrder(ia, i);
      KeyOrder(a, i);
    }
  }

  lemma FirstKey(b: Key)
    requires WfKey(b) && Accepted(b)
    ensures Makes(KeyBetween(None, Some(b)), None, Some(b))
  {
    var ib, fb := Integer(b), Fraction(b);
    ValidKeyValidates(b);
    KeyParts(b);
    IntegerKey(ib);
    KeyOrder(ib, b);
    LtIrreflexive(ib);
    if ib == SMALLEST_INTEGER {
      assert ib + "" == ib;
      MidCorrect("", Some(fb));
      var m := Mid("", Some(fb)).value;
      KeyJoin(ib, m);
      KeyOrder(ib + m, b);
      assert KeyBetween(None, Some(b)) == Ok(Some(ib + m));
    } else if fb == "" {
      DecrementCorrect(ib);
      StepEnds(ib);
      var i := Decrement(ib).value.value;
      IntegerKey(i);
      ValOrder(i, ib);
      KeyOrder(i, b);
    }
  }

  /** For all accepted keys with a before b, either end possibly open, `key_between` makes a
      new key between them; neither "Cannot increment anymore" nor "cannot decrement anymore"
      is reachable. */
  lemma KeyBetweenCorrect(a: Option<Key>, b: Option<Key>)
    requires ValidBound(a) && ValidBound(b)
    requires a.Some? && b.Some? ==> Lt(a.value, b.value)
    ensures Makes(KeyBetween(a, b), a, b)
  {
    match (a, b)
    case (None, None) =>
      NumRepeat(1);
      ValCons('a', Repeat('0', 1));
      assert INTEGER_ZERO == ['a'] + Repeat('0', 1);
      IntegerKey(INTEGER_ZERO);
    case (None, Some(y)) => FirstKey(y);
    case (Some(x), None) => LastKey(x);
    case (Some(x), Some(y)) =>
      if Integer(x) == Integer(y) { SameIntegerKey(x, y); } else { OtherIntegerKey(x, y); }
  }

  /** One above the smallest integer part. */
  const SECOND_INTEGER := "A" + Repeat('0', 25) + "1"

  lemma SecondAboveSmallest()
    ensures WfInteger(SMALLEST_INTEGER) && WfInteger(SECOND_INTEGER)
    ensures Increment(SMALLEST_INTEGER) == Ok(Some(SECOND_INTEGER))
    ensures Decrement(SECOND_INTEGER) == Ok(Some(SMALLEST_INTEGER))
  {
    hide Num, Pow, Offset, Val;
    NumRepeat(26);
    ValCons('A', Repeat('0', 26));
    assert SMALLEST_INTEGER == ['A'] + Repeat('0', 26);
    var digs := SMALLEST_INTEGER[1..];
    assert digs == Repeat('0', 26) && digs[..25] == Repeat('0', 25);
    assert SECOND_INTEGER == ['A'] + (Repeat('0', 25) + "1");
    IncrementCorrect(SMALLEST_INTEGER);
    IncrementDecrement(SMALLEST_INTEGER, SECOND_INTEGER);
  }

  /** New keys are usable again, but for one pair of arguments: in front of the second smallest
      integer the reserved smallest integer comes out, which the validation refuses. */
  lemma KeyBetweenClosed(a: Option<Key>, b: Option<Key>)
    requires ValidBound(a) && ValidBound(b)
    requires a.Some? && b.Some? ==> Lt(a.value, b.value)
    ensures KeyBetween(a, b) == Ok(Some(SMALLEST_INTEGER)) <==> a.None? && b == Some(SECOND_INTEGER)
  {
    KeyBetweenCorrect(a, b);
    SecondAboveSmallest();
    IntegerKey(SMALLEST_INTEGER);
    if KeyBetween(a, b) == Ok(Some(SMALLEST_INTEGER)) {
      if a.Some? {
        KeyParts(a.value);
        KeyOrder(a.value, SMALLEST_INTEGER);
        ValRange(Integer(a.value));
        ValOrder(Integer(a.value), SMALLEST_INTEGER);
      } else if b.Some? {
        ReservedKey(b.value);
      }
    }
    if a.None? && b == Some(SECOND_INTEGER) {
      IntegerKey(SECOND_INTEGER);
      LtIrreflexive(SECOND_INTEGER);
      ValidKeyValidates(SECOND_INTEGER);
    }
  }

  lemma ReservedKey(b: Key)
    requires WfKey(b) && Accepted(b) && KeyBetween(None, Some(b)) == Ok(Some(SMALLEST_INTEGER))
    ensures b == SECOND_INTEGER
  {
    var ib, fb := Integer(b), Fraction(b);
    ValidKeyValidates(b);
    KeyParts(b);
    IntegerKey(ib);
    KeyOrder(ib, b);
    LtIrreflexive(ib);
    if ib == SMALLEST_INTEGER {
      assert ib + "" == ib;
      MidCorrect("", Some(fb));
    } else if fb == "" {
      SecondAboveSmallest();
      IncrementDecrement(SMALLEST_INTEGER, ib);
    }
  }

  /** Exactly when `key_between` makes a key, for well-formed keys of every length: both are
      accepted and strictly ordered. Equal keys panic; only reversed ones are refused. */
  lemma KeyBetweenTotal(a: Option<Key>, b: Option<Key>)
    requires (a.Some? ==> WfKey(a.value)) && (b.Some? ==> WfKey(b.value))
    ensures KeyBetween(a, b).Ok? <==>
      ValidBound(a) && ValidBound(b) && (a.Some? && b.Some? ==> Lt(a.value, b.value))
    ensures ValidBound(a) && ValidBound(b) && a.Some? && b.Some? ==>
      (KeyBetween(a, b).Panic? <==> a.value == b.value) &&
      (KeyBetween(a, b) == Err("key_between - a must be before b") <==> Lt(b.value, a.value))
  {
    if a.Some? { ValidKeyValidates(a.value); }
    if b.Some? { ValidKeyValidates(b.value); }
    if ValidBound(a) && ValidBound(b) {
      if a.Some? && b.Some? && !Lt(a.value, b.value) {
        LtTotal(a.value, b.value);
        if a == b {
          LtIrreflexive(a.value);
          KeyParts(a.value);
          LtIrreflexive(Fraction(a.value));
          MidFails(Fraction(a.value), Fraction(a.value));
        } else {
          LtAsymmetric(b.value, a.value);
        }
      } else {
        if a.Some? && b.Some? { LtAsymmetric(a.value, b.value); }
        KeyBetweenCorrect(a, b);
      }
    }
  }

  /** Every well-formed key of at most 255 bytes but the reserved one is accepted. */
  lemma ShortKeysAccepted(k: Key)
    requires WfKey(k) && |k| <= 255 && k != SMALLEST_INTEGER
    ensures Accepted(k)
  {
  }

  /** Accepted does not follow from being well formed: at 256 bytes every key is refused. */
  lemma LongKeyRefused(k: Key)
    requires WfKey(k) && |k| == 256
    ensures ValidateOrderKey(k) == Err("integer part of key is too long")
  {
    KeyParts(k);
    assert |SMALLEST_INTEGER| == 27;
  }

  // ---- Which key it is --------------------------------------------------------------------

  /** The integer v with nothing behind it. */
  predicate IsInteger(k: Key, v: int) {
    WfKey(k) && Fraction(k) == "" && Val(Integer(k)) == v
  }

  /** The integer part of a with another fraction behind it. */
  predicate IsInside(k: Key, a: Key, f: Outcome<string>)
    requires WfKey(a)
  {
    WfKey(k) && Integer(k) == Integer(a) && f == Ok(Fraction(k))
  }

  /** Behind a: the next integer, and only behind the largest a longer fraction. */
  predicate IsAppended(k: Key, a: Key)
    requires WfKey(a)
  {
    if Integer(a) != LARGEST_INTEGER then IsInteger(k, Val(Integer(a)) + 1)
    else IsInside(k, a, Mid(Fraction(a), None))
  }

  /** In front of b: its own integer when b is behind that, and the integer before otherwise; only in
      front of the smallest a smaller fraction. */
  predicate IsPrepended(k: Key, b: Key)
    requires WfKey(b)
  {
    if Integer(b) == SMALLEST_INTEGER then IsInside(k, b, Mid("", Some(Fraction(b))))
    else IsInteger(k, if Fraction(b) != "" then Val(Integer(b)) else Val(Integer(b)) - 1)
  }

  /** Between a and b: inside a common integer part; otherwise the integer behind that of a when it
      is in front of b, and a longer fraction behind a when it is not. */
  predicate IsInserted(k: Key, a: Key, b: Key)
    requires WfKey(a) && WfKey(b)
  {
    var next := Val(Integer(a)) + 1;
    if Integer(a) == Integer(b) then IsInside(k, a, Mid(Fraction(a), Some(Fraction(b))))
    else if next < Val(Integer(b)) || (next == Val(Integer(b)) && Fraction(b) != "") then IsInteger(k, next)
    else IsInside(k, a, Mid(Fraction(a), None))
  }

  predicate IsExactly(k: Key, a: Option<Key>, b: Option<Key>)
    requires ValidBound(a) && ValidBound(b)
  {
    match (a, b)
    case (None, None) => IsInteger(k, 0)
    case (Some(x), None) => IsAppended(k, x)
    case (None, Some(y)) => IsPrepended(k, y)
    case (Some(x), Some(y)) => IsInserted(k, x, y)
  }

  lemma AppendedExact(a: Key)
    requires WfKey(a) && Accepted(a)
    ensures KeyBetween(Some(a), None).Ok? && KeyBetween(Some(a), None).value.Some?
    ensures IsAppended(KeyBetween(Some(a), None).value.value, a)
  {
    hide Val, WfInteger, Increment, ValidateOrderKey, Mid, IsBase62;
    var ia := Integer(a);
    ValidKeyValidates(a);
    KeyParts(a);
    IncrementCorrect(ia);
    StepEnds(ia);
    if ia != LARGEST_INTEGER {
      IntegerKey(Increment(ia).value.value);
    } else {
      MidCorrect(Fraction(a), None);
      KeyJoin(ia, Mid(Fraction(a), None).value);
    }
  }

  lemma PrependedExact(b: Key)
    requires WfKey(b) && Accepted(b)
    ensures KeyBetween(None, Some(b)).Ok? && KeyBetween(None, Some(b)).value.Some?
    ensures IsPrepended(KeyBetween(None, Some(b)).value.value, b)
  {
    hide Val, WfInteger, Decrement, ValidateOrderKey, Mid, IsBase62, Lt;
    var ib, fb := Integer(b), Fraction(b);
    ValidKeyValidates(b);
    KeyParts(b);
    IntegerKey(ib);
    IntegerBelow(b);
    if ib == SMALLEST_INTEGER {
      SmallestFraction(b);
      MidCorrect("", Some(fb));
      KeyJoin(ib, Mid("", Some(fb)).value);
    } else if fb == "" {
      DecrementCorrect(ib);
      StepEnds(ib);
      IntegerKey(Decrement(ib).value.value);
    }
  }

  /** The integer part is below the key exactly when something is behind it. */
  lemma IntegerBelow(b: Key)
    requires WfKey(b)
    ensures Lt(Integer(b), b) <==> Fraction(b) != ""
  {
    KeyParts(b);
    if Fraction(b) == "" {
      assert Integer(b) + "" == Integer(b);
      LtIrreflexive(b);
    } else {
      LtProperPrefix(Integer(b), Fraction(b));
    }
  }

  lemma SmallestFraction(b: Key)
    requires WfKey(b) && Accepted(b) && Integer(b) == SMALLEST_INTEGER
    ensures Bounds("", Some(Fraction(b)))
  {
    KeyParts(b);
    assert Integer(b) + "" == Integer(b);
  }

  /** When the integer behind that of a is in front of b. */
  lemma NextBelow(a: Key, b: Key, i: string)
    requires WfKey(a) && WfKey(b) && WfInteger(i) && Val(i) == Val(Integer(a)) + 1
    ensures Lt(i, b) <==> Val(i) < Val(Integer(b)) || (Val(i) == Val(Integer(b)) && Fraction(b) != "")
  {
    hide Val, Lt, WfInteger;
    IntegerKey(i);
    KeyParts(b);
    KeyOrder(i, b);
    ValOrder(i, Integer(b));
    ValOrder(Integer(b), i);
    LtTotal(i, Integer(b));
    LtIrreflexive("");
    if Fraction(b) != "" { NothingBelow(Fraction(b)); }
  }

  lemma InsertedExact(a: Key, b: Key)
    requires WfKey(a) && Accepted(a) && WfKey(b) && Accepted(b) && Lt(a, b)
    ensures KeyBetween(Some(a), Some(b)).Ok? && KeyBetween(Some(a), Some(b)).value.Some?
    ensures IsInserted(KeyBetween(Some(a), Some(b)).value.value, a, b)
  {
    hide Val, WfInteger, Increment, ValidateOrderKey, Mid, IsBase62, Lt;
    var ia, ib := Integer(a), Integer(b);
    ValidKeyValidates(a);
    ValidKeyValidates(b);
    KeyParts(a);
    KeyParts(b);
    LtAsymmetric(a, b);
    KeyOrder(a, b);
    LtIrreflexive(ia);
    if ia == ib {
      MidCorrect(Fraction(a), Some(Fraction(b)));
      KeyJoin(ia, Mid(Fraction(a), Some(Fraction(b))).value);
    } else {
      NotLargest(ia, ib);
      IncrementCorrect(ia);
      var i := Increment(ia).value.value;
      IntegerKey(i);
      NextBelow(a, b, i);
      MidCorrect(Fraction(a), None);
      KeyJoin(ia, Mid(Fraction(a), None).value);
    }
  }

  lemma NotLargest(x: string, y: string)
    requires WfInteger(x) && WfInteger(y) && Lt(x, y)
    ensures Increment(x).Ok? && Increment(x).value.Some?
  {
    hide Val, Increment, Lt;
    ValOrder(x, y);
    ValRange(y);
    StepEnds(x);
    IncrementCorrect(x);
  }

  lemma OpenExact()
    ensures KeyBetween(None, None).Ok? && KeyBetween(None, None).value.Some?
    ensures IsInteger(KeyBetween(None, None).value.value, 0)
  {
    NumRepeat(1);
    ValCons('a', Repeat('0', 1));
    assert INTEGER_ZERO == ['a'] + Repeat('0', 1);
    IntegerKey(INTEGER_ZERO);
  }

  /** Which key `key_between` makes: the next integer wherever there is room for one, and a fraction
      only where there is none. */
  lemma KeyBetweenExact(a: Option<Key>, b: Option<Key>)
    requires ValidBound(a) && ValidBound(b) && (a.Some? && b.Some? ==> Lt(a.value, b.value))
    ensures KeyBetween(a, b).Ok? && KeyBetween(a, b).value.Some?
    ensures IsExactly(KeyBetween(a, b).value.value, a, b)
  {
    hide KeyBetween, IsInteger, IsAppended, IsPrepended, IsInserted, Lt;
    match (a, b)
    case (None, None) => OpenExact();
    case (None, Some(y)) => PrependedExact(y);
    case (Some(x), None) => AppendedExact(x);
    case (Some(x), Some(y)) => InsertedExact(x, y);
  }

  /** Some keys, character by character. */
  lemma KeyExamples()
    ensures KeyBetween(None, None) == Ok(Some("a0"))
    ensures KeyBetween(None, Some("a0")) == Ok(Some("Zz"))
    ensures KeyBetween(Some("a0"), None) == Ok(Some("a1"))
    ensures KeyBetween(Some("a0"), Some("a1")) == Ok(Some("a0V"))
    ensures KeyBetween(Some("a0"), Some("a0V")) == Ok(Some("a0G"))
  {
    hide Mid;
    ExampleParts();
    MidExamples();
    LtIrreflexive("a1");
    assert "a0" + "V" == "a0V" && "a0" + "G" == "a0G";
  }

  lemma MidExamples()
    ensures Mid("", None) == Ok("V") && Mid("", Some("V")) == Ok("G")
  {
  }

  lemma ExampleParts()
    ensures "a0"[..2] == "a0" && "a0"[2..] == "" && "a1"[..2] == "a1" && "a1"[2..] == ""
    ensures "a0V"[..2] == "a0" && "a0V"[2..] == "V"
    ensures Increment("a0") == Ok(Some("a1"))
  {
    assert "a0"[1..] == "0" == "" + ['0'] && "" + [Digit(1)] == "1";
    IncDigitsSnoc("", '0');
    assert IncDigits("0") == Ok(("1", false));
    assert ['a'] + "1" == "a1";
  }
}
