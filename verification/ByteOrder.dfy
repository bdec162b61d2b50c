/** The order of byte strings: what Rust's `<` on `str`, C's `strcmp` and SQLite's
    BINARY collation compute on ASCII text. */
module ByteOrder {

  /** a comes strictly before b. */
  predicate Lt(a: string, b: string) {
    b != "" && (a == "" || a[0] < b[0] || (a[0] == b[0] && Lt(a[1..], b[1..])))
  }

  lemma {:induction false} LtIrreflexive(a: string)
    ensures !Lt(a, a)
  {
    if a != "" { LtIrreflexive(a[1..]); }
  }

  lemma {:induction false} LtTransitive(a: string, b: string, c: string)
    requires Lt(a, b) && Lt(b, c)
    ensures Lt(a, c)
  {
    if a != "" && a[0] == b[0] == c[0] { LtTransitive(a[1..], b[1..], c[1..]); }
  }

  lemma {:induction false} LtTotal(a: string, b: string)
    ensures a == b || Lt(a, b) || Lt(b, a)
  {
    if a != "" && b != "" && a[0] == b[0] {
      LtTotal(a[1..], b[1..]);
      assert a == [a[0]] + a[1..] && b == [b[0]] + b[1..];
    }
  }

  lemma LtAsymmetric(a: string, b: string)
    requires Lt(a, b)
    ensures !Lt(b, a) && a != b
  {
    if Lt(b, a) { LtTransitive(a, b, a); }
    LtIrreflexive(a);
  }

  /** A common prefix does not affect the order. */
  lemma {:induction false} LtCommonPrefix(p: string, a: string, b: string)
    ensures Lt(p + a, p + b) <==> Lt(a, b)
  {
    if p == "" {
      assert p + a == a && p + b == b;
    } else {
      assert (p + a)[1..] == p[1..] + a && (p + b)[1..] == p[1..] + b;
      LtCommonPrefix(p[1..], a, b);
    }
  }

  lemma LtProperPrefix(a: string, x: string)
    requires x != ""
    ensures Lt(a, a + x)
  {
    LtCommonPrefix(a, "", x);
    assert a + "" == a;
  }

  /** Once two strings differ inside both of them, what follows does not matter. */
  lemma {:induction false} LtExtend(a: string, b: string, x: string, y: string)
    requires Lt(a, b) && !(a <= b)
    ensures Lt(a + x, b + y)
  {
    if a[0] == b[0] {
      assert a[1..] <= b[1..] ==> a <= b;
      assert (a + x)[1..] == a[1..] + x && (b + y)[1..] == b[1..] + y;
      LtExtend(a[1..], b[1..], x, y);
    }
  }

  /** For strings of one length only the strings themselves decide. */
  lemma LtSameLengthExtend(a: string, b: string, x: string, y: string)
    requires |a| == |b| && Lt(a, b)
    ensures Lt(a + x, b + y)
  {
    LtAsymmetric(a, b);
    LtExtend(a, b, x, y);
  }
}
