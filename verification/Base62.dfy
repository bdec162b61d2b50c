/** The base-62 alphabet of the fractional index and numbers written in it. */
module Base62 {
  import opened Wrappers
  import opened ByteOrder

  const BASE_62_DIGITS := "0123456789" + "ABCDEFGHIJKLMNOPQRSTUVWXYZ" + "abcdefghijklmnopqrstuvwxyz"

  /** `digits[d..d + 1]` */
  function Digit(d: nat): char
    requires d < 62
  {
    if d < 10 then (d + 48) as char
    else if d < 36 then (d + 55) as char
    else (d + 61) as char
  }

  /** `digits.find(c)` */
  function Find(c: char): (r: Option<nat>)
    ensures r.Some? ==> r.value < 62
  {
    if '0' <= c <= '9' then Some(c as int - 48)
    else if 'A' <= c <= 'Z' then Some(c as int - 55)
    else if 'a' <= c <= 'z' then Some(c as int - 61)
    else None
  }

  lemma DigitTable(d: nat)
    requires d < 62
    ensures |BASE_62_DIGITS| == 62 && BASE_62_DIGITS[d] == Digit(d)
    ensures Find(Digit(d)) == Some(d)
  {
  }

  /** Find is the lookup in the digit table: the index of c, or nothing when c is no digit. */
  lemma FindTable(c: char)
    ensures match Find(c)
            case Some(d) => d < 62 && BASE_62_DIGITS[d] == c
            case None => c !in BASE_62_DIGITS
  {
    if Find(c).Some? {
      DigitTable(Find(c).value);
    } else if c in BASE_62_DIGITS {
      var d :| 0 <= d < |BASE_62_DIGITS| && BASE_62_DIGITS[d] == c;
      DigitTable(d);
    }
  }

  /** Digits compare as bytes exactly as their indices compare as numbers. */
  lemma DigitOrder(c: char, d: char)
    requires Find(c).Some? && Find(d).Some?
    ensures c < d <==> Find(c).value < Find(d).value
    ensures c == d <==> Find(c).value == Find(d).value
  {
  }

  predicate IsBase62(s: string) {
    forall i | 0 <= i < |s| :: Find(s[i]).Some?
  }

  function Pow(n: nat): (p: nat)
    ensures p > 0
  {
    if n == 0 then 1 else 62 * Pow(n - 1)
  }

  /** The number written by a digit string. */
  function Num(s: string): nat
    requires IsBase62(s)
  {
    if s == "" then 0 else 62 * Num(s[..|s| - 1]) + Find(s[|s| - 1]).value
  }

  lemma {:induction false} NumBound(s: string)
    requires IsBase62(s)
    ensures Num(s) < Pow(|s|)
  {
    if s != "" { NumBound(s[..|s| - 1]); }
  }

  /** Digit strings of one length are ordered as the numbers they write. */
  lemma {:induction false} NumOrder(s: string, t: string)
    requires IsBase62(s) && IsBase62(t) && |s| == |t|
    ensures Lt(s, t) <==> Num(s) < Num(t)
    ensures s == t <==> Num(s) == Num(t)
  {
    if s != "" {
      var n := |s| - 1;
      var p, q := s[..n], t[..n];
      assert s == p + [s[n]] && t == q + [t[n]];
      NumOrder(p, q);
      DigitOrder(s[n], t[n]);
      if p == q {
        LtCommonPrefix(p, [s[n]], [t[n]]);
      } else if Lt(p, q) {
        LtSameLengthExtend(p, q, [s[n]], [t[n]]);
      } else {
        LtTotal(p, q);
        LtSameLengthExtend(q, p, [t[n]], [s[n]]);
        LtAsymmetric(t, s);
      }
    }
  }
}
