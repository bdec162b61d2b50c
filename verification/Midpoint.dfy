/** `midpoint`: a fraction strictly between two fractions, as short as the digits allow. */
module Midpoint {
  import opened Wrappers
  import opened ByteOrder
  import opened Base62

  /** `round`, on the floating-point average of two digits. */
  function Round(d: real): nat
    requires d >= 0.0
  {
    var tenx := (d * 10.0).Floor;
    var truncated := d.Floor;
    if tenx - truncated * 10 >= 5 then truncated + 1 else truncated
  }

  /** On half-integers `round` is exact half-up. */
  lemma RoundHalfUp(n: nat)
    ensures Round(0.5 * n as real) == (n + 1) / 2
  {
    var d := 0.5 * n as real;
    var h := n / 2;
    assert d.Floor == h && (d * 10.0).Floor == 5 * n;
  }

  /** The digit `midpoint` puts between two digits. */
  function MidDigit(digitA: nat, digitB: nat): (r: nat)
    ensures r == (digitA + digitB + 1) / 2
  {
    RoundHalfUp(digitA + digitB);
    Round(0.5 * (digitA + digitB) as real)
  }

  /** The n-th byte of a, with '0' past its end. */
  function PadAt(a: string, n: nat): char {
    if n < |a| then a[n] else '0'
  }

  /** How far b agrees with a padded by zeros, from n on; None when it runs off the end of b. */
  function CommonLength(a: string, b: string, n: nat): (r: Option<nat>)
    ensures r.Some? ==> n <= r.value < |b| && PadAt(a, r.value) != b[r.value]
    ensures forall i | n <= i < (if r.Some? then r.value else |b|) :: PadAt(a, i) == b[i]
    decreases |b| - n
  {
    if n >= |b| then None
    else if PadAt(a, n) != b[n] then Some(n)
    else CommonLength(a, b, n + 1)
  }

  predicate EndsInZero(s: string) {
    s != "" && s[|s| - 1] == '0'
  }

  function Measure(b: Option<string>): nat {
    if b.Some? then |b.value| + 1 else 0
  }

  /** What `midpoint` computes; b is None for "no upper bound". */
  function Mid(a: string, b: Option<string>): Outcome<string>
    decreases Measure(b), |a|
  {
    if b.Some? && Lt(b.value, a) then Err("midpoint - a must be before b")
    else if b == Some("") then Panic
    else if EndsInZero(a) || (b.Some? && EndsInZero(b.value)) then
      Err("midpoint - a or b must not end with 0")
    else if b.Some? then
      match CommonLength(a, b.value, 0)
      case None => Panic
      case Some(n) =>
        if n > 0 then
          var m :- Mid(if n > |a| then "" else a[n..], Some(b.value[n..]));
          Ok(b.value[..n] + m)
        else
          FirstDigits(a, b)
    else FirstDigits(a, b)
  }

  /** The last part of `midpoint`: the first digits differ. */
  function FirstDigits(a: string, b: Option<string>): Outcome<string>
    requires b.Some? ==> b.value != "" && !Lt(b.value, a) && PadAt(a, 0) != b.value[0]
    decreases Measure(b), |a|, 0
  {
    var digitA := Find(PadAt(a, 0));
    if digitA.None? then Err("midpoint - a has invalid digits") else
      var digitB := if b.Some? then Find(b.value[0]) else Some(62);
      if digitB.None? then Err("midpoint - b has invalid digits") else
        if digitB.value - digitA.value > 1 then
          Ok([Digit(MidDigit(digitA.value, digitB.value))])
        else if b.Some? && |b.value| > 1 then
          Ok(b.value[..1])
        else
          var m :- Mid(if a == "" then a else a[1..], None);
          Ok([Digit(digitA.value)] + m)
  }

  /** `midpoint`, with its loop over the common bytes. */
  method Midpoint(a: string, b: Option<string>) returns (r: Outcome<string>)
    ensures r == Mid(a, b)
    decreases Measure(b), |a|
  {
    if b.Some? && Lt(b.value, a) { return Err("midpoint - a must be before b"); }
    if b == Some("") { return Panic; }
    if EndsInZero(a) || (b.Some? && EndsInZero(b.value)) {
      return Err("midpoint - a or b must not end with 0");
    }
    if b.Some? {
      var n := 0;
      while n < |b.value| && PadAt(a, n) == b.value[n]
        invariant n <= |b.value|
        invariant CommonLength(a, b.value, 0) == CommonLength(a, b.value, n)
        decreases |b.value| - n
      {
        n := n + 1;
      }
      if n == |b.value| { return Panic; }
      if n > 0 {
        var m := Midpoint(if n > |a| then "" else a[n..], Some(b.value[n..]));
        if m.IsFailure() { return m.PropagateFailure(); }
        return Ok(b.value[..n] + m.value);
      }
    }
    var digitA := if |a| > 0 then Find(a[0]) else Some(0);
    if digitA.None? { return Err("midpoint - a has invalid digits"); }
    var digitB := if b.Some? then Find(b.value[0]) else Some(62);
    if digitB.None? { return Err("midpoint - b has invalid digits"); }
    if digitB.value - digitA.value > 1 {
      return Ok([Digit(MidDigit(digitA.value, digitB.value))]);
    }
    if b.Some? && |b.value| > 1 { return Ok(b.value[..1]); }
    var m := Midpoint(if a == "" then a else a[1..], None);
    if m.IsFailure() { return m.PropagateFailure(); }
    return Ok([Digit(digitA.value)] + m.value);
  }

  // ---- Correctness ------------------------------------------------------------------------

  /** The fractions `midpoint` is meant for. */
  predicate IsFraction(s: string) {
    IsBase62(s) && !EndsInZero(s)
  }

  predicate Bounds(a: string, b: Option<string>) {
    IsFraction(a) && (b.Some? ==> IsFraction(b.value) && Lt(a, b.value))
  }

  function Longest(a: string, b: Option<string>): nat {
    if b.Some? && |b.value| > |a| then |b.value| else |a|
  }

  predicate IsMid(m: string, a: string, b: Option<string>) {
    IsFraction(m) && Lt(a, m) && (b.Some? ==> Lt(m, b.value)) && |m| <= Longest(a, b) + 1
  }

  /** b runs out against a padded by zeros only when it ends in zero or is not above a. */
  lemma CommonLengthNone(a: string, b: string)
    requires b != "" && CommonLength(a, b, 0).None?
    ensures EndsInZero(b) || !Lt(a, b)
  {
    if |b| > |a| {
      assert PadAt(a, |b| - 1) == b[|b| - 1];
    } else {
      assert a == b + a[|b|..];
      LtCommonPrefix(b, a[|b|..], "");
      assert b + "" == b;
    }
  }

  lemma FractionParts(s: string, n: nat, m: string)
    requires IsFraction(s) && n <= |s|
    ensures IsFraction(s[n..])
    ensures IsFraction(m) && m != "" ==> IsFraction(s[..n] + m)
  {
    if n < |s| { assert s[n..][|s| - n - 1] == s[|s| - 1]; }
    if m != "" { assert (s[..n] + m)[n + |m| - 1] == m[|m| - 1]; }
  }

  /** For every fraction a and every bound b above it `midpoint` succeeds, strictly between
      them, with a fraction at most one digit longer than the longer of the two. */
  lemma {:induction false} MidCorrect(a: string, b: Option<string>)
    requires Bounds(a, b)
    ensures Mid(a, b).Ok? && IsMid(Mid(a, b).value, a, b)
    decreases Measure(b), |a|
  {
    if b.Some? {
      LtAsymmetric(a, b.value);
      if CommonLength(a, b.value, 0).None? { CommonLengthNone(a, b.value); }
      var n := CommonLength(a, b.value, 0).value;
      if n > 0 { MidCommon(a, b.value, n); } else { FirstDigitsCorrect(a, b); }
    } else {
      FirstDigitsCorrect(a, b);
    }
  }

  /** What is left of a and b behind their common digits. */
  function RestOf(a: string, n: nat): string {
    if n > |a| then "" else a[n..]
  }

  lemma NothingBelow(s: string)
    requires s != ""
    ensures Lt("", s) && IsFraction("")
  {
  }

  lemma RestBounds(a: string, b: string, n: nat)
    requires Bounds(a, Some(b)) && n < |b| && forall i | 0 <= i < n :: PadAt(a, i) == b[i]
    ensures Bounds(RestOf(a, n), Some(b[n..]))
  {
    hide Lt, IsFraction;
    NothingBelow(b[n..]);
    FractionParts(b, n, "");
    if n <= |a| {
      FractionParts(a, n, "");
      CommonPrefix(a, b, n);
      LtCommonPrefix(b[..n], a[n..], b[n..]);
    }
  }

  lemma CommonPrefix(a: string, b: string, n: nat)
    requires n <= |a| && n <= |b| && forall i | 0 <= i < n :: PadAt(a, i) == b[i]
    ensures a == b[..n] + a[n..] && b == b[..n] + b[n..]
  {
    assert forall i | 0 <= i < n :: a[i] == PadAt(a, i);
  }

  lemma MidUnfolds(a: string, b: string, n: nat)
    requires Bounds(a, Some(b)) && CommonLength(a, b, 0) == Some(n) && n > 0
    ensures Mid(a, Some(b)) ==
      (var m := Mid(RestOf(a, n), Some(b[n..])); if m.Ok? then Ok(b[..n] + m.value) else m)
  {
    LtAsymmetric(a, b);
    hide Lt;
  }

  lemma {:induction false} MidCommon(a: string, b: string, n: nat)
    requires Bounds(a, Some(b)) && CommonLength(a, b, 0) == Some(n) && n > 0
    ensures Mid(a, Some(b)).Ok? && IsMid(Mid(a, Some(b)).value, a, Some(b))
    decreases Measure(Some(b)), |a|, 0
  {
    hide Lt, Mid, IsMid, IsFraction, CommonLength;
    RestBounds(a, b, n);
    MidCorrect(RestOf(a, n), Some(b[n..]));
    MidUnfolds(a, b, n);
    MidPrefixed(a, b, n, Mid(RestOf(a, n), Some(b[n..])).value);
  }

  /** A midpoint of the rest, put behind the common digits, is a midpoint of the whole. */
  lemma MidPrefixed(a: string, b: string, n: nat, m: string)
    requires IsFraction(a) && IsFraction(b) && n < |b|
    requires forall i | 0 <= i < n :: PadAt(a, i) == b[i]
    requires IsMid(m, RestOf(a, n), Some(b[n..]))
    ensures IsMid(b[..n] + m, a, Some(b))
  {
    hide Lt, IsFraction;
    var p := b[..n];
    AboveNothing(RestOf(a, n), m);
    FractionParts(b, n, m);
    assert b == p + b[n..];
    LtCommonPrefix(p, m, b[n..]);
    if n <= |a| {
      CommonPrefix(a, b, n);
      LtCommonPrefix(p, a[n..], m);
    } else {
      PaddedPrefix(a, b, n, m);
    }
  }

  lemma AboveNothing(a: string, m: string)
    requires Lt(a, m)
    ensures m != ""
  {
  }

  lemma PaddedPrefix(a: string, b: string, n: nat, m: string)
    requires |a| < n < |b| && m != "" && forall i | 0 <= i < n :: PadAt(a, i) == b[i]
    ensures Lt(a, b[..n] + m)
  {
    hide Lt;
    var p := b[..n];
    assert p + m == a + (p + m)[|a|..] by {
      assert forall i | 0 <= i < |a| :: a[i] == PadAt(a, i);
    }
    LtProperPrefix(a, (p + m)[|a|..]);
  }

  lemma {:induction false} FirstDigitsCorrect(a: string, b: Option<string>)
    requires Bounds(a, b) && (b.Some? ==> !Lt(b.value, a) && b.value != "" && PadAt(a, 0) != b.value[0])
    ensures FirstDigits(a, b).Ok? && IsMid(FirstDigits(a, b).value, a, b)
    decreases Measure(b), |a|, 1
  {
    var digitA := Find(PadAt(a, 0)).value;
    var digitB := if b.Some? then Find(b.value[0]).value else 62;
    if b.Some? { DigitOrder(PadAt(a, 0), b.value[0]); }
    hide Find, Digit, MidDigit, IsMid;
    if digitB - digitA > 1 {
      OneDigitMid(a, b, digitA, digitB);
    } else if b.Some? && |b.value| > 1 {
      FirstByteMid(a, b.value);
    } else {
      NextDigits(a, b, digitA);
    }
  }

  lemma {:induction false} NextDigits(a: string, b: Option<string>, digitA: nat)
    requires Bounds(a, b) && Find(PadAt(a, 0)) == Some(digitA) && (a == "" ==> b.Some?)
    requires b.Some? ==> b.value != "" && PadAt(a, 0) < b.value[0]
    ensures var m := Mid(if a == "" then a else a[1..], None);
      m.Ok? && IsMid([Digit(digitA)] + m.value, a, b)
    decreases Measure(b), |a|, 0
  {
    var a' := if a == "" then a else a[1..];
    FractionParts(a, if a == "" then 0 else 1, "");
    MidCorrect(a', None);
    DigitPrefixed(a, b, digitA, Mid(a', None).value);
  }

  lemma FirstByteMid(a: string, b: string)
    requires IsFraction(b) && |b| > 1 && Find(PadAt(a, 0)).Some? && PadAt(a, 0) < b[0]
    ensures IsMid(b[..1], a, Some(b))
  {
    assert b == b[..1] + b[1..];
    LtProperPrefix(b[..1], b[1..]);
    assert Lt(a, b[..1]);
  }

  lemma DigitPrefixed(a: string, b: Option<string>, digitA: nat, m: string)
    requires Find(PadAt(a, 0)) == Some(digitA)
    requires b.Some? ==> b.value != "" && PadAt(a, 0) < b.value[0]
    requires IsMid(m, if a == "" then a else a[1..], None)
    requires a == "" ==> b.Some?
    ensures IsMid([Digit(digitA)] + m, a, b)
  {
    FindTable(PadAt(a, 0));
    DigitTable(digitA);
    var c := [Digit(digitA)];
    assert (c + m)[1..] == m;
    FractionParts(c + m, 1, "");
    assert (c + m)[|c + m| - 1] == m[|m| - 1];
  }

  lemma OneDigitMid(a: string, b: Option<string>, digitA: nat, digitB: nat)
    requires Find(PadAt(a, 0)) == Some(digitA)
    requires if b.Some? then b.value != "" && Find(b.value[0]) == Some(digitB) else digitB == 62
    requires digitB - digitA > 1
    ensures IsMid([Digit(MidDigit(digitA, digitB))], a, b)
  {
    var mid := MidDigit(digitA, digitB);
    DigitTable(mid);
    DigitOrder(PadAt(a, 0), Digit(mid));
    if b.Some? { DigitOrder(Digit(mid), b.value[0]); }
  }

  /** Outside a < b there is no midpoint: equal bounds panic, reversed bounds are refused. */
  lemma MidFails(a: string, b: string)
    requires IsFraction(a) && IsFraction(b) && !Lt(a, b)
    ensures Mid(a, Some(b)) == if a == b then Panic else Err("midpoint - a must be before b")
  {
    LtTotal(a, b);
    LtIrreflexive(a);
    assert a == b ==> forall i | 0 <= i < |b| :: PadAt(a, i) == b[i];
  }

  // ---- Which fraction it is ---------------------------------------------------------------

  function DigitAt(s: string, i: nat): nat {
    var d := Find(PadAt(s, i));
    if d.Some? then d.value else 0
  }

  /** a padded by zeros up to place n, and there the digit in the middle of two, the upper one at an
      exact half. */
  predicate MidAt(m: string, a: string, n: nat, digitA: nat, digitB: nat) {
    |m| == n + 1 && (forall i | 0 <= i < n :: m[i] == PadAt(a, i)) && Find(m[n]) == Some((digitA + digitB + 1) / 2)
  }

  /** From place n on, a has nothing but the highest digit up to k. */
  predicate HighUpTo(a: string, n: nat, k: nat) {
    n <= k && (forall i | n <= i < k :: PadAt(a, i) == 'z') && PadAt(a, k) != 'z'
  }

  lemma DigitInRange(a: string, i: nat)
    requires IsBase62(a)
    ensures Find(PadAt(a, i)) == Some(DigitAt(a, i)) && DigitAt(a, i) < 62
    ensures PadAt(a, i) == 'z' <==> DigitAt(a, i) == 61
  {
  }

  lemma RestAt(a: string, n: nat, i: nat)
    ensures PadAt(RestOf(a, n), i) == PadAt(a, n + i)
  {
  }

  /** Above every digit: the first place that is not the highest digit goes half way to the end. */
  lemma {:induction false} MidOpenExact(a: string, k: nat)
    requires IsFraction(a) && HighUpTo(a, 0, k)
    ensures Mid(a, None).Ok? && MidAt(Mid(a, None).value, a, k, DigitAt(a, k), 62)
    decreases k
  {
    hide Find, Digit, MidDigit, IsFraction;
    MidOpenStep(a);
    if k == 0 {
      DigitTable((DigitAt(a, 0) + 63) / 2);
    } else {
      HighRest(a, k);
      MidOpenExact(a[1..], k - 1);
      var m := Mid(a[1..], None).value;
      assert Mid(a, None).value == ['z'] + m;
      forall i | 0 <= i < k ensures (['z'] + m)[i] == PadAt(a, i) {
        if i > 0 { assert m[i - 1] == PadAt(a[1..], i - 1) == PadAt(a, i); }
      }
    }
  }

  lemma HighRest(a: string, k: nat)
    requires IsFraction(a) && HighUpTo(a, 0, k) && k > 0
    ensures a != "" && a[0] == 'z' && IsFraction(a[1..]) && HighUpTo(a[1..], 0, k - 1)
    ensures DigitAt(a[1..], k - 1) == DigitAt(a, k)
  {
    assert PadAt(a, 0) == 'z';
    FractionParts(a, 1, "");
    forall i | 0 <= i < k - 1 ensures PadAt(a[1..], i) == 'z' { assert PadAt(a, i + 1) == 'z'; }
  }

  lemma MidOpenStep(a: string)
    requires IsFraction(a)
    ensures DigitAt(a, 0) < 62 && (PadAt(a, 0) == 'z' <==> DigitAt(a, 0) == 61)
    ensures DigitAt(a, 0) < 61 ==> Mid(a, None) == Ok([Digit((DigitAt(a, 0) + 63) / 2)])
    ensures DigitAt(a, 0) == 61 ==>
      a != "" && Mid(a, None) == (var m := Mid(a[1..], None); if m.Ok? then Ok(['z'] + m.value) else m)
  {
    DigitInRange(a, 0);
  }

  /** The first digits differ: half way between them; or the first digit of b when they are
      neighbours and b goes on; or else a with something behind it. */
  lemma MidFirstStep(a: string, b: string)
    requires Bounds(a, Some(b)) && b != "" && PadAt(a, 0) != b[0]
    ensures DigitAt(a, 0) < DigitAt(b, 0) < 62
    ensures DigitAt(a, 0) + 1 < DigitAt(b, 0) ==>
      Mid(a, Some(b)) == Ok([Digit((DigitAt(a, 0) + DigitAt(b, 0) + 1) / 2)])
    ensures DigitAt(a, 0) + 1 == DigitAt(b, 0) ==>
      Mid(a, Some(b)) ==
        if |b| > 1 then Ok(b[..1])
        else (var m := Mid(RestOf(a, 1), None); if m.Ok? then Ok([PadAt(a, 0)] + m.value) else m)
  {
    LtAsymmetric(a, b);
    DigitInRange(a, 0);
    DigitInRange(b, 0);
    DigitOrder(PadAt(a, 0), b[0]);
    FindTable(PadAt(a, 0));
    DigitTable(DigitAt(a, 0));
    hide Find, Digit;
  }

  /** What is put between a and b, where n is the first place at which a padded by zeros and b
      differ: at n the digit in the middle of both when they are no neighbours; b cut behind n when
      they are and b goes on; otherwise a up to the first place k behind n that is not the highest
      digit, and there the digit half way to the end. */
  lemma MidExact(a: string, b: string, n: nat, k: nat)
    requires Bounds(a, Some(b)) && n < |b| && PadAt(a, n) != b[n] && forall i | 0 <= i < n :: PadAt(a, i) == b[i]
    requires HighUpTo(a, n + 1, k)
    ensures Mid(a, Some(b)).Ok? && DigitAt(a, n) < DigitAt(b, n)
    ensures var m := Mid(a, Some(b)).value;
      if DigitAt(a, n) + 1 < DigitAt(b, n) then MidAt(m, a, n, DigitAt(a, n), DigitAt(b, n))
      else if |b| > n + 1 then m == b[..n + 1]
      else MidAt(m, a, k, DigitAt(a, k), 62)
  {
    hide Lt, Mid, Find, Digit, IsFraction, MidAt;
    var x, y := RestOf(a, n), b[n..];
    RestBounds(a, b, n);
    RestAt(a, n, 0);
    RestAt(a, n, 1);
    MidCut(a, b, n);
    MidFirstExact(a, b, n, k);
  }

  /** The common digits stay, the rest is put between the rests. */
  lemma MidCut(a: string, b: string, n: nat)
    requires Bounds(a, Some(b)) && n < |b| && PadAt(a, n) != b[n] && forall i | 0 <= i < n :: PadAt(a, i) == b[i]
    ensures Mid(a, Some(b)) ==
      (var m := Mid(RestOf(a, n), Some(b[n..])); if m.Ok? then Ok(b[..n] + m.value) else m)
  {
    hide Lt, Mid, IsFraction;
    CommonIs(a, b, n, 0);
    if n > 0 {
      MidUnfolds(a, b, n);
    } else {
      assert b[..0] == "" && b[0..] == b && RestOf(a, 0) == a;
      var m := Mid(a, Some(b));
      if m.Ok? { assert "" + m.value == m.value; }
    }
  }

  lemma {:induction false} CommonIs(a: string, b: string, n: nat, from: nat)
    requires from <= n < |b| && PadAt(a, n) != b[n] && forall i | 0 <= i < n :: PadAt(a, i) == b[i]
    ensures CommonLength(a, b, from) == Some(n)
    decreases n - from
  {
    if from < n { CommonIs(a, b, n, from + 1); }
  }

  lemma MidFirstExact(a: string, b: string, n: nat, k: nat)
    requires IsFraction(a) && n < |b| && (forall i | 0 <= i < n :: PadAt(a, i) == b[i]) && HighUpTo(a, n + 1, k)
    requires Bounds(RestOf(a, n), Some(b[n..])) && PadAt(a, n) != b[n]
    ensures var m := Mid(RestOf(a, n), Some(b[n..]));
      m.Ok? && DigitAt(a, n) < DigitAt(b, n) &&
      if DigitAt(a, n) + 1 < DigitAt(b, n) then MidAt(b[..n] + m.value, a, n, DigitAt(a, n), DigitAt(b, n))
      else if |b| > n + 1 then b[..n] + m.value == b[..n + 1]
      else MidAt(b[..n] + m.value, a, k, DigitAt(a, k), 62)
  {
    hide Lt, Mid, Find, Digit, IsFraction;
    var x, y := RestOf(a, n), b[n..];
    RestAt(a, n, 0);
    RestDigits(a, b, n);
    MidFirstStep(x, y);
    if DigitAt(a, n) + 1 < DigitAt(b, n) {
      DigitTable((DigitAt(a, n) + DigitAt(b, n) + 1) / 2);
    } else if |b| > n + 1 {
      assert b[..n] + y[..1] == b[..n + 1];
    } else {
      MidBehind(a, n, k);
      var m := Mid(RestOf(a, n + 1), None).value;
      assert RestOf(x, 1) == RestOf(a, n + 1);
      assert b[..n] + ([PadAt(a, n)] + m) == b[..n] + [PadAt(a, n)] + m;
      BehindExact(a, b[..n] + [PadAt(a, n)], m, n + 1, k);
    }
  }

  lemma RestDigits(a: string, b: string, n: nat)
    requires n < |b|
    ensures DigitAt(RestOf(a, n), 0) == DigitAt(a, n) && DigitAt(b[n..], 0) == DigitAt(b, n)
  {
  }

  lemma MidBehind(a: string, n: nat, k: nat)
    requires IsFraction(a) && HighUpTo(a, n + 1, k)
    ensures Mid(RestOf(a, n + 1), None).Ok?
    ensures MidAt(Mid(RestOf(a, n + 1), None).value, RestOf(a, n + 1), k - n - 1, DigitAt(a, k), 62)
  {
    hide Mid, Find, Digit;
    var x := RestOf(a, n + 1);
    if n + 1 <= |a| { FractionParts(a, n + 1, ""); }
    forall i | 0 <= i < k - n - 1 ensures PadAt(x, i) == 'z' { assert PadAt(a, n + 1 + i) == 'z'; }
    RestAt(a, n + 1, k - n - 1);
    MidOpenExact(x, k - n - 1);
  }

  lemma BehindExact(a: string, p: string, m: string, n: nat, k: nat)
    requires |p| == n <= k && (forall i | 0 <= i < n :: p[i] == PadAt(a, i))
    requires MidAt(m, RestOf(a, n), k - n, DigitAt(a, k), 62)
    ensures MidAt(p + m, a, k, DigitAt(a, k), 62)
  {
    hide Find;
    forall i | n <= i < k ensures (p + m)[i] == PadAt(a, i) { RestAt(a, n, i - n); }
  }

  /** There always are such places. */
  lemma MidPlaces(a: string, b: string) returns (n: nat, k: nat)
    requires Bounds(a, Some(b))
    ensures n < |b| && PadAt(a, n) != b[n] && forall i | 0 <= i < n :: PadAt(a, i) == b[i]
    ensures HighUpTo(a, n + 1, k)
  {
    if CommonLength(a, b, 0).None? { CommonLengthNone(a, b); }
    n := CommonLength(a, b, 0).value;
    k := HighEnd(a, n + 1);
  }

  lemma HighEnd(a: string, n: nat) returns (k: nat)
    ensures HighUpTo(a, n, k)
    decreases |a| - n
  {
    if PadAt(a, n) != 'z' { return n; }
    k := HighEnd(a, n + 1);
  }
}
