/** The variable-length integer part of a fractional index: a head letter that fixes the
    length, then base-62 digits. Integer parts are the integers in
    [-Offset(26), Offset(26)), in order. */
module IntegerPart {
  import opened Wrappers
  import opened ByteOrder
  import opened Base62

  function Repeat(c: char, n: nat): string {
    seq(n, _ => c)
  }

  const SMALLEST_INTEGER := "A" + Repeat('0', 26)
  const LARGEST_INTEGER := "z" + Repeat('z', 26)
  const INTEGER_ZERO := "a0"

  /** `get_integer_len` */
  function IntegerLen(head: char): Outcome<nat> {
    if 'a' <= head <= 'z' then Ok(head as int - 97 + 2)
    else if 'A' <= head <= 'Z' then Ok(90 - head as int + 2)
    else Err("head is out of range")
  }

  predicate WfInteger(x: string) {
    x != "" && IntegerLen(x[0]) == Ok(|x|) && IsBase62(x)
  }

  /** How many integer parts have fewer than n + 1 digits on one side of zero. */
  function Offset(n: nat): (o: int)
    ensures o >= 0
  {
    if n == 0 then 0 else Offset(n - 1) + Pow(n)
  }

  /** The integer an integer part stands for: "a0" is 0, "Zz" is -1, "b00" is 62. */
  function Val(x: string): int
    requires WfInteger(x)
  {
    var n := |x| - 1;
    if 'a' <= x[0] then Offset(n - 1) + Num(x[1..]) else Num(x[1..]) - Offset(n)
  }

  // ---- increment_integer and decrement_integer ------------------------------------------

  /** A result for the front of a digit string, with the rest of the string put back behind it. */
  function Behind(r: Outcome<(string, bool)>, rest: string): Outcome<(string, bool)> {
    var (front, out) :- r;
    Ok((front + rest, out))
  }

  lemma BehindBehind(r: Outcome<(string, bool)>, s: string, t: string)
    ensures Behind(Behind(r, s), t) == Behind(r, s + t)
    ensures Behind(r, "") == r
  {
    if r.Ok? {
      assert (r.value.0 + s) + t == r.value.0 + (s + t);
      assert r.value.0 + "" == r.value.0;
    }
  }

  /** Adds one to a digit string; the flag says that the carry ran out of the front. */
  function IncDigits(s: string): (r: Outcome<(string, bool)>)
    ensures r.Ok? ==> |r.value.0| == |s|
  {
    if s == "" then Ok(("", true)) else
      var n := |s| - 1;
      match Find(s[n])
      case None => Err("invalid digit")
      case Some(d) =>
        if d + 1 < 62 then Ok((s[..n] + [Digit(d + 1)], false)) else Behind(IncDigits(s[..n]), "0")
  }

  /** Subtracts one from a digit string; the flag says that the borrow ran out of the front. */
  function DecDigits(s: string): (r: Outcome<(string, bool)>)
    ensures r.Ok? ==> |r.value.0| == |s|
  {
    if s == "" then Ok(("", true)) else
      var n := |s| - 1;
      match Find(s[n])
      case None => Err("invalid digit")
      case Some(d) =>
        if d >= 1 then Ok((s[..n] + [Digit(d - 1)], false)) else Behind(DecDigits(s[..n]), "z")
  }

  /** `validate_integer`: the length is compared as a `u8`. */
  function ValidateInteger(x: string): Outcome<()> {
    if x == "" then Panic else
      var n :- IntegerLen(x[0]);
      if |x| % 256 != n then Err("invalid integer part of order key") else Ok(())
  }

  /** The head letter and the digits after a carry out of the front. */
  function CarryHead(head: char, digs: string): Option<string>
    requires IntegerLen(head).Ok? && digs != ""
  {
    if head == 'Z' then Some(INTEGER_ZERO)
    else if head == 'z' then None
    else
      var h := (head as int + 1) as char;
      Some([h] + if h > 'a' then digs + "0" else digs[..|digs| - 1])
  }

  function BorrowHead(head: char, digs: string): Option<string>
    requires IntegerLen(head).Ok? && digs != ""
  {
    if head == 'a' then Some("Zz")
    else if head == 'A' then None
    else
      var h := (head as int - 1) as char;
      Some([h] + if h < 'Z' then digs + "z" else digs[..|digs| - 1])
  }

  function Increment(x: string): Outcome<Option<string>> {
    var _ :- ValidateInteger(x);
    var (digs, carry) :- IncDigits(x[1..]);
    Ok(if carry then CarryHead(x[0], digs) else Some([x[0]] + digs))
  }

  function Decrement(x: string): Outcome<Option<string>> {
    var _ :- ValidateInteger(x);
    var (digs, borrow) :- DecDigits(x[1..]);
    Ok(if borrow then BorrowHead(x[0], digs) else Some([x[0]] + digs))
  }

  /** The loop of `increment_integer`, which rewrites `digs` from its end. */
  method IncrementInteger(x: string) returns (r: Outcome<Option<string>>)
    ensures r == Increment(x)
  {
    var v := ValidateInteger(x);
    if v.IsFailure() { return v.PropagateFailure(); }
    var digs := x[1..];
    var carry := true;
    var i := |digs| - 1;
    BehindBehind(IncDigits(digs), "", "");
    assert digs[..i + 1] == digs && digs[i + 1..] == "";
    while carry && i >= 0
      invariant -1 <= i < |digs| == |x| - 1
      invariant digs[..i + 1] == x[1..][..i + 1]
      invariant carry ==> IncDigits(x[1..]) == Behind(IncDigits(digs[..i + 1]), digs[i + 1..])
      invariant !carry ==> IncDigits(x[1..]) == Ok((digs, false))
    {
      var p := digs[..i + 1];
      assert p[..i] == digs[..i];
      var temp := Find(digs[i]);
      if temp.None? { return Err("invalid digit"); }
      var d := temp.value + 1;
      if d == |BASE_62_DIGITS| {
        digs := digs[i := '0'];
        BehindBehind(IncDigits(p[..i]), "0", digs[i + 1..]);
        assert "0" + digs[i + 1..] == digs[i..];
      } else {
        digs := digs[i := Digit(d)];
        carry := false;
        assert digs == p[..i] + [Digit(d)] + digs[i + 1..];
      }
      i := i - 1;
    }
    if carry {
      assert digs[..i + 1] == "" && digs[i + 1..] == "" + digs == digs;
      return Ok(CarryHead(x[0], digs));
    }
    return Ok(Some([x[0]] + digs));
  }

  /** The loop of `decrement_integer`. */
  method DecrementInteger(x: string) returns (r: Outcome<Option<string>>)
    ensures r == Decrement(x)
  {
    var v := ValidateInteger(x);
    if v.IsFailure() { return v.PropagateFailure(); }
    var digs := x[1..];
    var borrow := true;
    var i := |digs| - 1;
    BehindBehind(DecDigits(digs), "", "");
    assert digs[..i + 1] == digs && digs[i + 1..] == "";
    while borrow && i >= 0
      invariant -1 <= i < |digs| == |x| - 1
      invariant digs[..i + 1] == x[1..][..i + 1]
      invariant borrow ==> DecDigits(x[1..]) == Behind(DecDigits(digs[..i + 1]), digs[i + 1..])
      invariant !borrow ==> DecDigits(x[1..]) == Ok((digs, false))
    {
      var p := digs[..i + 1];
      assert p[..i] == digs[..i];
      var temp := Find(digs[i]);
      if temp.None? { return Err("invalid digit"); }
      var d := temp.value as int - 1;
      if d == -1 {
        digs := digs[i := 'z'];
        BehindBehind(DecDigits(p[..i]), "z", digs[i + 1..]);
        assert "z" + digs[i + 1..] == digs[i..];
      } else {
        digs := digs[i := Digit(d)];
        borrow := false;
        assert digs == p[..i] + [Digit(d)] + digs[i + 1..];
      }
      i := i - 1;
    }
    if borrow {
      assert digs[..i + 1] == "" && digs[i + 1..] == "" + digs == digs;
      return Ok(BorrowHead(x[0], digs));
    }
    return Ok(Some([x[0]] + digs));
  }

  // ---- The integer part is an order isomorphism onto a range of int ----------------------

  lemma {:induction false} OffsetMonotone(m: nat, n: nat)
    requires m < n
    ensures Offset(m) + Pow(n) <= Offset(n)
  {
    if m < n - 1 { OffsetMonotone(m, n - 1); }
  }

  /** The blocks of one head letter: which integers it covers. */
  lemma ValBlock(x: string)
    requires WfInteger(x)
    ensures var n := |x| - 1;
      1 <= n <= 26 &&
      if 'a' <= x[0] then Offset(n - 1) <= Val(x) < Offset(n) else -Offset(n) <= Val(x) < -Offset(n - 1)
  {
    NumBound(x[1..]);
  }

  lemma ValOrderSameHead(x: string, y: string)
    requires WfInteger(x) && WfInteger(y) && x[0] == y[0]
    ensures Lt(x, y) <==> Val(x) < Val(y)
    ensures x == y <==> Val(x) == Val(y)
  {
    NumOrder(x[1..], y[1..]);
    assert x == [x[0]] + x[1..] && y == [y[0]] + y[1..];
  }

  lemma ValOrderOtherHead(x: string, y: string)
    requires WfInteger(x) && WfInteger(y) && x[0] < y[0]
    ensures Lt(x, y) && Val(x) < Val(y)
  {
    hide Offset, Num, Val, Lt, IsBase62;
    HeadOrder(x, y);
    ValBlock(x);
    ValBlock(y);
    BlockOrder(|x| - 1, |y| - 1);
    BlockOrder(|y| - 1, |x| - 1);
  }

  lemma HeadOrder(x: string, y: string)
    requires x != "" && y != "" && x[0] < y[0]
    ensures Lt(x, y)
  {
  }

  lemma BlockOrder(m: nat, n: nat)
    requires 1 <= m && 1 <= n
    ensures m < n ==> Offset(m) <= Offset(n - 1)
  {
    if m < n - 1 { OffsetMonotone(m, n - 1); }
  }

  /** Two integer parts are ordered as byte strings exactly as the integers they stand for. */
  lemma ValOrder(x: string, y: string)
    requires WfInteger(x) && WfInteger(y)
    ensures Lt(x, y) <==> Val(x) < Val(y)
    ensures x == y <==> Val(x) == Val(y)
  {
    if x[0] == y[0] {
      ValOrderSameHead(x, y);
    } else if x[0] < y[0] {
      ValOrderOtherHead(x, y);
      LtAsymmetric(x, y);
    } else {
      ValOrderOtherHead(y, x);
      LtAsymmetric(y, x);
    }
  }

  /** Integer parts are prefix free: a different one differs inside the other. */
  lemma PrefixFree(x: string, y: string)
    requires WfInteger(x) && WfInteger(y) && x <= y
    ensures x == y
  {
    assert x[0] == y[0];
  }

  // ---- increment_integer and decrement_integer step by one --------------------------------

  lemma {:induction false} IncDigitsCorrect(s: string)
    requires IsBase62(s)
    ensures var r := IncDigits(s);
      r.Ok? && IsBase62(r.value.0) &&
      Num(r.value.0) + (if r.value.1 then Pow(|s|) else 0) == Num(s) + 1 &&
      (r.value.1 ==> s == Repeat('z', |s|) && r.value.0 == Repeat('0', |s|))
  {
    hide Num, Pow, IncDigits, Find, Digit;
    if s == "" {
      IncDigitsEmpty();
    } else {
      var n := |s| - 1;
      var p := s[..n];
      assert s == p + [s[n]];
      IncDigitsCorrect(p);
      IncDigitsSnoc(p, s[n]);
      NumSnoc(p, s[n]);
      if s[n] == 'z' {
        NumSnoc(IncDigits(p).value.0, '0');
      } else {
        NumSnoc(p, Digit(Find(s[n]).value + 1));
      }
    }
  }

  lemma IncDigitsEmpty()
    ensures IncDigits("") == Ok(("", true)) && Num("") == 0 && Pow(0) == 1
  {
  }

  lemma NumSnoc(p: string, c: char)
    requires IsBase62(p) && Find(c).Some?
    ensures IsBase62(p + [c]) && Num(p + [c]) == 62 * Num(p) + Find(c).value && Pow(|p| + 1) == 62 * Pow(|p|)
  {
    assert (p + [c])[..|p|] == p;
  }

  /** The last digit goes up by one, or it is the highest and the carry goes on. */
  lemma IncDigitsSnoc(p: string, c: char)
    requires Find(c).Some?
    ensures Find('0') == Some(0) && Find('z') == Some(61)
    ensures c == 'z' ==> IncDigits(p + [c]) == Behind(IncDigits(p), "0")
    ensures c != 'z' ==> Find(c).value < 61 && Find(Digit(Find(c).value + 1)) == Some(Find(c).value + 1)
    ensures c != 'z' ==> IncDigits(p + [c]) == Ok((p + [Digit(Find(c).value + 1)], false))
  {
    assert (p + [c])[..|p|] == p;
  }

  lemma {:induction false} DecDigitsCorrect(s: string)
    requires IsBase62(s)
    ensures var r := DecDigits(s);
      r.Ok? && IsBase62(r.value.0) &&
      Num(r.value.0) + 1 == Num(s) + (if r.value.1 then Pow(|s|) else 0) &&
      (r.value.1 ==> s == Repeat('0', |s|) && r.value.0 == Repeat('z', |s|))
  {
    hide Num, Pow, DecDigits, Find, Digit;
    if s == "" {
      DecDigitsEmpty();
    } else {
      var n := |s| - 1;
      var p := s[..n];
      assert s == p + [s[n]];
      DecDigitsCorrect(p);
      DecDigitsSnoc(p, s[n]);
      NumSnoc(p, s[n]);
      if s[n] == '0' {
        NumSnoc(DecDigits(p).value.0, 'z');
      } else {
        NumSnoc(p, Digit(Find(s[n]).value - 1));
      }
    }
  }

  lemma DecDigitsEmpty()
    ensures DecDigits("") == Ok(("", true)) && Num("") == 0 && Pow(0) == 1
  {
  }

  /** The last digit goes down by one, or it is the lowest and the borrow goes on. */
  lemma DecDigitsSnoc(p: string, c: char)
    requires Find(c).Some?
    ensures Find('0') == Some(0) && Find('z') == Some(61)
    ensures c == '0' ==> DecDigits(p + [c]) == Behind(DecDigits(p), "z")
    ensures c != '0' ==> Find(c).value > 0 && Find(Digit(Find(c).value - 1)) == Some(Find(c).value - 1)
    ensures c != '0' ==> DecDigits(p + [c]) == Ok((p + [Digit(Find(c).value - 1)], false))
  {
    assert (p + [c])[..|p|] == p;
  }

  lemma IncDigitsCarry(s: string)
    requires IsBase62(s) && s == Repeat('z', |s|)
    ensures IncDigits(s).Ok? && IncDigits(s).value.1
  {
    IncDigitsCorrect(s);
    NumRepeat(|s|);
    NumBound(IncDigits(s).value.0);
  }

  lemma {:induction false} NumRepeat(n: nat)
    ensures IsBase62(Repeat('0', n)) && Num(Repeat('0', n)) == 0
    ensures IsBase62(Repeat('z', n)) && Num(Repeat('z', n)) == Pow(n) - 1
  {
    if n > 0 {
      NumRepeat(n - 1);
      assert Repeat('0', n)[..n - 1] == Repeat('0', n - 1);
      assert Repeat('z', n)[..n - 1] == Repeat('z', n - 1);
    }
  }

  /** The integer of the first digit string under a head letter. */
  function Base(head: char, n: nat): int {
    if 'a' <= head && n > 0 then Offset(n - 1) else -Offset(n)
  }

  lemma ValCons(head: char, digs: string)
    requires IntegerLen(head) == Ok(|digs| + 1) && IsBase62(digs)
    ensures WfInteger([head] + digs) && Val([head] + digs) == Base(head, |digs|) + Num(digs)
  {
    assert ([head] + digs)[1..] == digs;
  }

  lemma OffsetSteps(n: nat)
    ensures Offset(0) == 0 && Offset(1) == 62 && Pow(1) == 62
    ensures n > 0 ==> Offset(n) == Offset(n - 1) + Pow(n)
    ensures Offset(n + 1) == Offset(n) + Pow(n + 1)
  {
    assert Pow(0) == 1;
  }

  lemma CarryHeadCorrect(head: char, n: nat)
    requires IntegerLen(head) == Ok(n + 1)
    ensures var y := CarryHead(head, Repeat('0', n));
      if head == 'z' then y.None? else
        y.Some? && WfInteger(y.value) && n <= |y.value| <= n + 2 && Val(y.value) == Base(head, n) + Pow(n)
  {
    hide Num, Pow, Offset, IsBase62;
    OffsetSteps(n);
    var h := (head as int + 1) as char;
    if head == 'Z' {
      NumRepeat(1);
      ValCons('a', Repeat('0', 1));
      assert INTEGER_ZERO == ['a'] + Repeat('0', 1);
    } else if 'a' <= head < 'z' {
      NumRepeat(n + 1);
      ValCons(h, Repeat('0', n + 1));
      assert Repeat('0', n) + "0" == Repeat('0', n + 1);
    } else if head < 'Z' {
      NumRepeat(n - 1);
      ValCons(h, Repeat('0', n - 1));
      assert Repeat('0', n)[..n - 1] == Repeat('0', n - 1);
    }
  }

  lemma BorrowHeadCorrect(head: char, n: nat)
    requires IntegerLen(head) == Ok(n + 1)
    ensures var y := BorrowHead(head, Repeat('z', n));
      if head == 'A' then y.None? else
        y.Some? && WfInteger(y.value) && n <= |y.value| <= n + 2 && Val(y.value) == Base(head, n) - 1
  {
    hide Num, Pow, Offset, IsBase62;
    OffsetSteps(n);
    var h := (head as int - 1) as char;
    if head == 'a' {
      NumRepeat(1);
      ValCons('Z', Repeat('z', 1));
      assert "Zz" == ['Z'] + Repeat('z', 1);
    } else if 'a' < head {
      OffsetSteps(n - 1);
      NumRepeat(n - 1);
      ValCons(h, Repeat('z', n - 1));
      assert Repeat('z', n)[..n - 1] == Repeat('z', n - 1);
    } else if 'A' < head {
      NumRepeat(n + 1);
      ValCons(h, Repeat('z', n + 1));
      assert Repeat('z', n) + "z" == Repeat('z', n + 1);
    }
  }

  /** `increment_integer` adds exactly one, over every carry and every change of head, and
      gives up only at the largest integer part. */
  lemma IncrementCorrect(x: string)
    requires WfInteger(x)
    ensures Increment(x).Ok?
    ensures var y := Increment(x).value;
      y.Some? ==> WfInteger(y.value) && Val(y.value) == Val(x) + 1 && |x| - 1 <= |y.value| <= |x| + 1
  {
    hide Num, IncDigits, Pow, Offset;
    var n := |x| - 1;
    IncDigitsCorrect(x[1..]);
    var (digs, carry) := IncDigits(x[1..]).value;
    if carry {
      NumRepeat(n);
      CarryHeadCorrect(x[0], n);
    } else {
      assert ([x[0]] + digs)[1..] == digs;
    }
  }

  /** `decrement_integer` subtracts exactly one and gives up only at the smallest. */
  lemma DecrementCorrect(x: string)
    requires WfInteger(x)
    ensures Decrement(x).Ok?
    ensures Decrement(x) == Ok(None) <==> x[0] == 'A' && x[1..] == Repeat('0', |x| - 1)
    ensures var y := Decrement(x).value;
      y.Some? ==> WfInteger(y.value) && Val(y.value) == Val(x) - 1 && |x| - 1 <= |y.value| <= |x| + 1
  {
    hide Num, DecDigits, Pow, Offset;
    var n := |x| - 1;
    DecDigitsCorrect(x[1..]);
    NumRepeat(n);
    var (digs, borrow) := DecDigits(x[1..]).value;
    if borrow {
      BorrowHeadCorrect(x[0], n);
    } else {
      assert ([x[0]] + digs)[1..] == digs;
    }
  }

  lemma Extremes(top: nat)
    requires top == 26
    ensures WfInteger(SMALLEST_INTEGER) && Val(SMALLEST_INTEGER) == -Offset(top)
    ensures WfInteger(LARGEST_INTEGER) && Val(LARGEST_INTEGER) == Offset(top) - 1
  {
    hide Find, Num, Pow, Offset, WfInteger, Val;
    NumRepeat(top);
    OffsetSteps(top);
    ValCons('A', Repeat('0', top));
    ValCons('z', Repeat('z', top));
  }

  lemma ValBounds(x: string, top: nat)
    requires WfInteger(x) && |x| - 1 <= top
    ensures -Offset(top) <= Val(x) < Offset(top)
  {
    ValBlock(x);
    if |x| - 1 < top { OffsetMonotone(|x| - 1, top); }
  }

  /** Every integer part lies between the two ends, by value and as a byte string. */
  lemma ValRange(x: string)
    requires WfInteger(x)
    ensures WfInteger(SMALLEST_INTEGER) && WfInteger(LARGEST_INTEGER)
    ensures Val(SMALLEST_INTEGER) <= Val(x) <= Val(LARGEST_INTEGER)
    ensures x == SMALLEST_INTEGER || Lt(SMALLEST_INTEGER, x)
    ensures x == LARGEST_INTEGER || Lt(x, LARGEST_INTEGER)
  {
    hide Offset, Val, Num, Find;
    ValRangeTop(x, 26);
    ValOrder(SMALLEST_INTEGER, x);
    ValOrder(x, LARGEST_INTEGER);
  }

  lemma ValRangeTop(x: string, top: nat)
    requires WfInteger(x) && top == 26
    ensures WfInteger(SMALLEST_INTEGER) && WfInteger(LARGEST_INTEGER)
    ensures Val(SMALLEST_INTEGER) <= Val(x) <= Val(LARGEST_INTEGER)
  {
    hide Offset, Val, Num, Find;
    Extremes(top);
    ValBounds(x, top);
  }

  /** Every integer between the two ends is the value of an integer part. */
  lemma {:induction false} ValOnto(v: int) returns (x: string)
    requires WfInteger(SMALLEST_INTEGER) && WfInteger(LARGEST_INTEGER)
    requires Val(SMALLEST_INTEGER) <= v <= Val(LARGEST_INTEGER)
    ensures WfInteger(x) && Val(x) == v
    decreases v - Val(SMALLEST_INTEGER)
  {
    if v == Val(SMALLEST_INTEGER) {
      x := SMALLEST_INTEGER;
    } else {
      var w := ValOnto(v - 1);
      IncrementCorrect(w);
      StepEnds(w);
      x := Increment(w).value.value;
    }
  }

  lemma IncrementEnd(x: string, n: nat)
    requires WfInteger(x) && |x| == n + 1
    ensures Increment(x) == Ok(None) <==> x[0] == 'z' && x[1..] == Repeat('z', n)
  {
    IncDigitsCorrect(x[1..]);
    if x[1..] == Repeat('z', n) { IncDigitsCarry(x[1..]); }
  }

  /** "Cannot go further" happens at the two ends only. */
  lemma StepEnds(x: string)
    requires WfInteger(x)
    ensures Increment(x) == Ok(None) <==> x == LARGEST_INTEGER
    ensures Decrement(x) == Ok(None) <==> x == SMALLEST_INTEGER
  {
    IncrementEnd(x, |x| - 1);
    DecrementCorrect(x);
    assert x == [x[0]] + x[1..];
    assert LARGEST_INTEGER[1..] == Repeat('z', 26);
    assert SMALLEST_INTEGER[1..] == Repeat('0', 26);
  }

  /** Stepping up and stepping down undo each other. */
  lemma IncrementDecrement(x: string, y: string)
    requires WfInteger(x) && WfInteger(y)
    ensures Increment(x) == Ok(Some(y)) <==> Decrement(y) == Ok(Some(x))
  {
    IncrementCorrect(x);
    DecrementCorrect(y);
    if Increment(x) == Ok(Some(y)) {
      ValRange(x);
      StepEnds(y);
      ValOrder(x, Decrement(y).value.value);
    }
    if Decrement(y) == Ok(Some(x)) {
      ValRange(y);
      StepEnds(x);
      ValOrder(y, Increment(x).value.value);
    }
  }
}
