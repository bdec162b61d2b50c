/** Primary keys travel as SQL literals joined by '|'. The scanners walk a string up to its
    terminating NUL; splitting undoes joining, whatever the literals contain. */
module QuoteConcat {
  import opened Wrappers

  const NUL := '\0'
  const QC_DELIM := '|'

  /** The character a pointer into the string points to; at its end that is the NUL. */
  function At(s: string, i: nat): char
    requires i <= |s|
  {
    if i < |s| then s[i] else NUL
  }

  predicate CString(s: string) {
    NUL !in s
  }

  // ---- What the scanners find -------------------------------------------------------------

  /** The end of the text literal that i is inside of; a doubled quote stands for a quote. */
  function EndOfLiteral(s: string, i: nat): (end: Option<nat>)
    requires i <= |s|
    ensures end.Some? ==> i < end.value <= |s| && s[end.value - 1] == '\''
    decreases |s| - i
  {
    if i == |s| then None
    else if s[i] != '\'' then EndOfLiteral(s, i + 1)
    else if At(s, i + 1) != '\'' then Some(i + 1)
    else EndOfLiteral(s, i + 2)
  }

  predicate IsDigit(c: char) {
    '0' <= c <= '9'
  }

  /** The end of a number: up to the delimiter or the end, with at most one '.', at most one 'e'
      and, right behind that, a sign. */
  function EndOfNumber(s: string, i: nat, points: nat, exponents: nat): (end: Option<nat>)
    requires i <= |s|
    ensures end.Some? ==> i <= end.value <= |s| && At(s, end.value) in {NUL, QC_DELIM}
    decreases |s| - i
  {
    if i == |s| || s[i] == QC_DELIM then Some(i)
    else if IsDigit(s[i]) then EndOfNumber(s, i + 1, points, exponents)
    else if s[i] == '.' then
      if points > 0 then None else EndOfNumber(s, i + 1, points + 1, exponents)
    else if s[i] == 'e' then
      if exponents > 0 then None
      else EndOfNumber(s, if At(s, i + 1) in {'-', '+'} then i + 2 else i + 1, points, exponents + 1)
    else None
  }

  /** The end of the part that starts at i. */
  function EndOfPart(s: string, i: nat): (end: Option<nat>)
    requires i <= |s|
    ensures end.Some? ==> i <= end.value <= |s| && (end.value == i ==> At(s, i) in {NUL, QC_DELIM})
  {
    if At(s, i) == '\'' then EndOfLiteral(s, i + 1)
    else if At(s, i) == 'X' then
      if At(s, i + 1) != '\'' then None else EndOfLiteral(s, i + 2)
    else if At(s, i) == 'N' then (if i + 4 <= |s| then Some(i + 4) else None)
    else EndOfNumber(s, if At(s, i) == '-' then i + 1 else i, 0, 0)
  }

  /** Where the next part starts: a delimiter behind a part is skipped. */
  function Skip(s: string, end: nat): (next: nat)
    requires end <= |s|
    ensures end <= next <= |s|
  {
    if At(s, end) == QC_DELIM then end + 1 else end
  }

  /** Exactly n parts from i on, and nothing behind them. */
  function SplitFrom(s: string, i: nat, n: nat): Option<seq<string>>
    requires i <= |s|
    decreases n
  {
    if n == 0 then (if i == |s| then Some([]) else None)
    else if i == |s| then None
    else
      var end := EndOfPart(s, i);
      if end.None? then None else Behind([s[i..end.value]], SplitFrom(s, Skip(s, end.value), n - 1))
  }

  function Behind(front: seq<string>, rest: Option<seq<string>>): Option<seq<string>> {
    if rest.None? then None else Some(front + rest.value)
  }

  function Split(s: string, n: nat): Option<seq<string>> {
    SplitFrom(s, 0, n)
  }

  // ---- The scanners -----------------------------------------------------------------------

  /** `crsql_scanToEndOfLiteral` */
  method ScanToEndOfLiteral(s: string, start: nat) returns (end: Option<nat>)
    requires CString(s) && start <= |s|
    ensures end == EndOfLiteral(s, start)
  {
    var i := start;
    while At(s, i) != NUL
      invariant start <= i <= |s|
      invariant EndOfLiteral(s, i) == EndOfLiteral(s, start)
      decreases |s| - i
    {
      if At(s, i) == '\'' {
        if At(s, i + 1) != '\'' { return Some(i + 1); }
        i := i + 1;
      }
      i := i + 1;
    }
    return None;
  }

  /** `crsql_safelyAdvanceThroughString` */
  method SafelyAdvanceThroughString(s: string, start: nat, len: nat) returns (end: Option<nat>)
    requires CString(s) && start <= |s|
    ensures end == if start + len <= |s| then Some(start + len) else None
  {
    var curr := start;
    for i := 0 to len
      invariant curr == start + i <= |s|
    {
      if At(s, curr) == NUL { return None; }
      curr := curr + 1;
    }
    return Some(curr);
  }

  /** `crsql_consumeDigitsToDelimiter` */
  method ConsumeDigitsToDelimiter(s: string, start: nat) returns (end: Option<nat>)
    requires CString(s) && start <= |s|
    ensures end == EndOfNumber(s, start, 0, 0)
  {
    var i, decimalCount, exponentCount := start, 0, 0;
    while At(s, i) != NUL && At(s, i) != QC_DELIM
      invariant start <= i <= |s|
      invariant 0 <= decimalCount && 0 <= exponentCount
      invariant EndOfNumber(s, i, decimalCount, exponentCount) == EndOfNumber(s, start, 0, 0)
      decreases |s| - i
    {
      if At(s, i) < '0' || At(s, i) > '9' {
        if At(s, i) == '.' {
          if decimalCount > 0 { return None; }
          decimalCount := decimalCount + 1;
        } else if At(s, i) == 'e' {
          if exponentCount > 0 { return None; }
          exponentCount := exponentCount + 1;
          if At(s, i + 1) == '-' || At(s, i + 1) == '+' { i := i + 1; }
        } else {
          return None;
        }
      }
      i := i + 1;
    }
    return Some(i);
  }

  /** One turn of the loop of the splitter, up to the end of the part. */
  method ScanPart(s: string, start: nat) returns (end: Option<nat>)
    requires CString(s) && start <= |s|
    ensures end == EndOfPart(s, start)
  {
    var curr := start;
    if At(s, curr) == '\'' {
      end := ScanToEndOfLiteral(s, curr + 1);
    } else if At(s, curr) == 'X' {
      curr := curr + 1;
      if At(s, curr) != '\'' {
        end := None;
      } else {
        end := ScanToEndOfLiteral(s, curr + 1);
      }
    } else if At(s, curr) == 'N' {
      end := SafelyAdvanceThroughString(s, curr, 4);
    } else {
      if At(s, curr) == '-' { curr := curr + 1; }
      end := ConsumeDigitsToDelimiter(s, curr);
    }
  }

  /** `crsql_splitQuoteConcat` */
  method SplitQuoteConcat(s: string, partsLen: nat) returns (parts: Option<seq<string>>)
    requires CString(s)
    ensures parts == Split(s, partsLen)
  {
    hide SplitFrom, EndOfPart, Behind;
    var curr, last := 0, 0;
    var found: seq<string> := [];
    BehindNothing(Split(s, partsLen));
    while At(s, curr) != NUL && |found| < partsLen
      invariant last == curr <= |s| && |found| <= partsLen
      invariant Split(s, partsLen) == Behind(found, SplitFrom(s, curr, partsLen - |found|))
      decreases |s| - curr
    {
      FoundOneMore(s, curr, partsLen - |found|, found);
      var end := ScanPart(s, curr);
      if end.None? { return None; }
      curr := end.value;
      found := found + [s[last..curr]];
      if At(s, curr) == QC_DELIM { curr := curr + 1; }
      last := curr;
    }
    SplitStops(s, curr, partsLen - |found|, found);
    if |found| != partsLen || At(s, curr) != NUL { return None; }
    return Some(found);
  }

  /** One round of the loop: the next part moves behind those found. */
  lemma FoundOneMore(s: string, i: nat, n: nat, found: seq<string>)
    requires CString(s) && i < |s| && n > 0
    ensures var end, split := EndOfPart(s, i), Behind(found, SplitFrom(s, i, n));
      if end.None? then split == None
      else Skip(s, end.value) > i &&
           split == Behind(found + [s[i..end.value]], SplitFrom(s, Skip(s, end.value), n - 1))
  {
    var end := EndOfPart(s, i);
    hide EndOfPart;
    if end.Some? { BehindBoth(found, [s[i..end.value]], SplitFrom(s, Skip(s, end.value), n - 1)); }
  }

  lemma SplitStops(s: string, i: nat, n: nat, found: seq<string>)
    requires i == |s| || n == 0
    ensures i <= |s| ==> Behind(found, SplitFrom(s, i, n)) == if n == 0 && i == |s| then Some(found) else None
  {
    assert found + [] == found;
  }

  lemma BehindNothing(rest: Option<seq<string>>)
    ensures Behind([], rest) == rest
  {
    if rest.Some? { assert [] + rest.value == rest.value; }
  }

  lemma BehindBoth(a: seq<string>, b: seq<string>, rest: Option<seq<string>>)
    ensures Behind(a, Behind(b, rest)) == Behind(a + b, rest)
  {
    if rest.Some? { assert a + (b + rest.value) == a + b + rest.value; }
  }

  // ---- Soundness --------------------------------------------------------------------------

  /** The parts in order, each followed by a delimiter or not. */
  function Glue(parts: seq<string>, delimited: seq<bool>): string
    requires |delimited| == |parts|
  {
    if parts == [] then "" else
      parts[0] + (if delimited[0] then [QC_DELIM] else []) + Glue(parts[1..], delimited[1..])
  }

  /** Whatever the string: if it splits, it is exactly its parts in order with at most one
      delimiter behind each, and every part is one whole part by itself. */
  lemma {:induction false} SplitSound(s: string, i: nat, n: nat, parts: seq<string>) returns (delimited: seq<bool>)
    requires CString(s) && i <= |s| && SplitFrom(s, i, n) == Some(parts)
    ensures |parts| == n == |delimited| && s[i..] == Glue(parts, delimited)
    ensures forall p | p in parts :: EndOfPart(p, 0) == Some(|p|)
    decreases n
  {
    hide EndOfPart, SplitFrom, Glue, Skip;
    if n == 0 {
      GlueNothing(s, i, parts);
      return [];
    }
    SplitCons(s, i, n, parts);
    var end := EndOfPart(s, i).value;
    var rest := SplitSound(s, Skip(s, end), n - 1, parts[1..]);
    delimited := [Skip(s, end) > end] + rest;
    GlueBehind(s, i, end, parts[1..], rest);
    PartAlone(s, i, end);
    forall p | p in parts ensures EndOfPart(p, 0) == Some(|p|) {
      if p != parts[0] { assert p in parts[1..]; }
    }
  }

  lemma GlueNothing(s: string, i: nat, parts: seq<string>)
    requires i <= |s| && SplitFrom(s, i, 0) == Some(parts)
    ensures parts == [] && s[i..] == Glue([], [])
  {
  }

  lemma SplitCons(s: string, i: nat, n: nat, parts: seq<string>)
    requires i <= |s| && n > 0 && SplitFrom(s, i, n) == Some(parts)
    ensures EndOfPart(s, i).Some?
    ensures var end := EndOfPart(s, i).value;
      parts != [] && parts == [s[i..end]] + parts[1..] && SplitFrom(s, Skip(s, end), n - 1) == Some(parts[1..])
  {
    hide EndOfPart;
  }

  lemma GlueBehind(s: string, i: nat, end: nat, tail: seq<string>, rest: seq<bool>)
    requires i <= end <= |s| && |rest| == |tail| && s[Skip(s, end)..] == Glue(tail, rest)
    ensures s[i..] == Glue([s[i..end]] + tail, [Skip(s, end) > end] + rest)
  {
    assert ([s[i..end]] + tail)[1..] == tail && ([Skip(s, end) > end] + rest)[1..] == rest;
  }

  lemma {:induction false} LiteralAlone(s: string, from: nat, i: nat, end: nat)
    requires from <= i <= |s| && EndOfLiteral(s, i) == Some(end)
    ensures EndOfLiteral(s[from..end], i - from) == Some(end - from)
    decreases |s| - i
  {
    var p := s[from..end];
    if s[i] != '\'' {
      LiteralAlone(s, from, i + 1, end);
    } else if At(s, i + 1) == '\'' {
      LiteralAlone(s, from, i + 2, end);
      assert p[i + 1 - from] == s[i + 1];
    }
  }

  /** One character of a number. */
  lemma NumberStep(s: string, i: nat, points: nat, exponents: nat)
    requires i <= |s|
    ensures EndOfNumber(s, i, points, exponents) ==
      if i == |s| || s[i] == QC_DELIM then Some(i)
      else if IsDigit(s[i]) then EndOfNumber(s, i + 1, points, exponents)
      else if s[i] == '.' && points == 0 then EndOfNumber(s, i + 1, points + 1, exponents)
      else if s[i] == 'e' && exponents == 0 then
        EndOfNumber(s, if At(s, i + 1) in {'-', '+'} then i + 2 else i + 1, points, exponents + 1)
      else None
  {
  }

  lemma {:induction false} NumberAlone(s: string, from: nat, i: nat, points: nat, exponents: nat, end: nat)
    requires CString(s) && from <= i <= |s| && EndOfNumber(s, i, points, exponents) == Some(end)
    ensures EndOfNumber(s[from..end], i - from, points, exponents) == Some(end - from)
    decreases |s| - i
  {
    hide EndOfNumber;
    var p := s[from..end];
    NumberStep(s, i, points, exponents);
    NumberStep(p, i - from, points, exponents);
    if i < end {
      assert p[i - from] == s[i];
      if IsDigit(s[i]) {
        NumberAlone(s, from, i + 1, points, exponents, end);
      } else if s[i] == '.' {
        NumberAlone(s, from, i + 1, points + 1, exponents, end);
      } else {
        NumberAlone(s, from, if At(s, i + 1) in {'-', '+'} then i + 2 else i + 1, points, exponents + 1, end);
      }
    }
  }

  lemma PartAlone(s: string, i: nat, end: nat)
    requires CString(s) && i <= |s| && EndOfPart(s, i) == Some(end)
    ensures EndOfPart(s[i..end], 0) == Some(end - i)
  {
    if At(s, i) == '\'' {
      LiteralAlone(s, i, i + 1, end);
    } else if At(s, i) == 'X' {
      LiteralAlone(s, i, i + 2, end);
    } else if At(s, i) != 'N' {
      NumberAlone(s, i, if At(s, i) == '-' then i + 1 else i, 0, 0, end);
    }
  }

  // ---- Literals and the round trip --------------------------------------------------------

  /** The values `quote()` prints. */
  datatype Literal =
    | Text(chars: string)
    | Blob(hex: string)
    | Null
    | Number(negative: bool, digits: string, fraction: Option<string>, exponent: Option<Exponent>)

  datatype Exponent = Exponent(sign: Option<char>, digits: string)

  predicate Digits(s: string) {
    s != "" && forall c | c in s :: IsDigit(c)
  }

  predicate Printable(l: Literal) {
    match l
    case Text(chars) => CString(chars)
    case Blob(hex) => forall c | c in hex :: IsDigit(c) || 'A' <= c <= 'F'
    case Null => true
    case Number(_, digits, fraction, exponent) =>
      Digits(digits) && (fraction.Some? ==> Digits(fraction.value)) && GoodExponent(exponent)
  }

  predicate GoodExponent(exponent: Option<Exponent>) {
    exponent.Some? ==>
      (Digits(exponent.value.digits) && (exponent.value.sign.Some? ==> exponent.value.sign.value in {'-', '+'}))
  }

  function Doubled(s: string): string {
    if s == "" then "" else (if s[0] == '\'' then "''" else [s[0]]) + Doubled(s[1..])
  }

  function FractionOf(fraction: Option<string>): string {
    if fraction.Some? then "." + fraction.value else ""
  }

  function ExponentOf(exponent: Option<Exponent>): string {
    if exponent.None? then ""
    else "e" + (if exponent.value.sign.Some? then [exponent.value.sign.value] else "") + exponent.value.digits
  }

  function Print(l: Literal): string {
    match l
    case Text(chars) => "'" + Doubled(chars) + "'"
    case Blob(hex) => "X'" + hex + "'"
    case Null => "NULL"
    case Number(negative, digits, fraction, exponent) =>
      (if negative then "-" else "") + Unsigned(digits, fraction, exponent)
  }

  function Unsigned(digits: string, fraction: Option<string>, exponent: Option<Exponent>): string {
    digits + FractionOf(fraction) + ExponentOf(exponent)
  }

  function Prints(literals: seq<Literal>): (r: seq<string>)
    ensures |r| == |literals|
  {
    seq(|literals|, i requires 0 <= i < |literals| => Print(literals[i]))
  }

  function Join(parts: seq<string>, delim: char): string {
    if parts == [] then "" else if |parts| == 1 then parts[0] else parts[0] + [delim] + Join(parts[1..], delim)
  }

  /** The string holds p at i. */
  predicate Sits(s: string, i: nat, p: string) {
    i + |p| <= |s| && s[i..i + |p|] == p
  }

  lemma SitsBoth(s: string, i: nat, a: string, b: string)
    requires Sits(s, i, a + b)
    ensures Sits(s, i, a) && Sits(s, i + |a|, b)
    ensures (a != "" ==> s[i] == a[0]) && (b != "" ==> s[i + |a|] == b[0])
  {
    assert s[i..i + |a|] == s[i..i + |a + b|][..|a|] == a;
    assert s[i + |a|..i + |a + b|] == s[i..i + |a + b|][|a|..] == b;
    if a != "" { assert s[i] == s[i..i + |a|][0]; }
    if b != "" { assert s[i + |a|] == s[i + |a|..i + |a + b|][0]; }
  }

  lemma LiteralStep(s: string, i: nat)
    requires i < |s|
    ensures EndOfLiteral(s, i) ==
      if s[i] != '\'' then EndOfLiteral(s, i + 1)
      else if At(s, i + 1) != '\'' then Some(i + 1)
      else EndOfLiteral(s, i + 2)
  {
  }

  lemma {:induction false} LiteralScanned(s: string, i: nat, chars: string)
    requires Sits(s, i, Doubled(chars) + "'") && At(s, i + |Doubled(chars)| + 1) != '\''
    ensures EndOfLiteral(s, i) == Some(i + |Doubled(chars)| + 1)
    decreases |chars|
  {
    hide EndOfLiteral, Sits;
    if chars == "" {
      SitsBoth(s, i, "", "'");
      LiteralStep(s, i);
    } else {
      var first, rest := if chars[0] == '\'' then "''" else [chars[0]], Doubled(chars[1..]) + "'";
      assert Doubled(chars) + "'" == first + rest;
      SitsBoth(s, i, first, rest);
      if chars[0] == '\'' {
        assert first + rest == "'" + ("'" + rest);
        SitsBoth(s, i, "'", "'" + rest);
      }
      LiteralStep(s, i);
      LiteralScanned(s, i + |first|, chars[1..]);
    }
  }

  /** A text without quotes is its own doubling. */
  lemma {:induction false} DoubledPlain(s: string)
    requires '\'' !in s
    ensures Doubled(s) == s
  {
    if s != "" { DoubledPlain(s[1..]); }
  }

  lemma DigitStep(s: string, i: nat, points: nat, exponents: nat)
    requires i < |s| && IsDigit(s[i])
    ensures EndOfNumber(s, i, points, exponents) == EndOfNumber(s, i + 1, points, exponents)
  {
  }

  lemma {:induction false} DigitsScanned(s: string, i: nat, digits: string, points: nat, exponents: nat)
    requires Sits(s, i, digits) && forall c | c in digits :: IsDigit(c)
    ensures EndOfNumber(s, i, points, exponents) == EndOfNumber(s, i + |digits|, points, exponents)
    decreases |digits|
  {
    hide EndOfNumber, Sits;
    if digits != "" {
      assert digits == digits[..1] + digits[1..] && digits[0] in digits;
      SitsBoth(s, i, digits[..1], digits[1..]);
      DigitStep(s, i, points, exponents);
      DigitsScanned(s, i + 1, digits[1..], points, exponents);
    }
  }

  lemma ExponentStep(s: string, i: nat, points: nat)
    requires i < |s| && s[i] == 'e'
    ensures EndOfNumber(s, i, points, 0) ==
      EndOfNumber(s, if At(s, i + 1) in {'-', '+'} then i + 2 else i + 1, points, 1)
  {
  }

  lemma PointStep(s: string, i: nat)
    requires i < |s| && s[i] == '.'
    ensures EndOfNumber(s, i, 0, 0) == EndOfNumber(s, i + 1, 1, 0)
  {
  }

  lemma NumberStops(s: string, i: nat, points: nat, exponents: nat)
    requires CString(s) && i <= |s| && At(s, i) in {NUL, QC_DELIM}
    ensures EndOfNumber(s, i, points, exponents) == Some(i)
  {
  }

  lemma NumberStarts(s: string, i: nat)
    requires i < |s| && (s[i] == '-' || IsDigit(s[i]))
    ensures EndOfPart(s, i) == EndOfNumber(s, if s[i] == '-' then i + 1 else i, 0, 0)
  {
  }

  lemma ExponentScanned(s: string, i: nat, exponent: Option<Exponent>, points: nat)
    requires CString(s) && GoodExponent(exponent) && Sits(s, i, ExponentOf(exponent))
    requires At(s, i + |ExponentOf(exponent)|) in {NUL, QC_DELIM}
    ensures EndOfNumber(s, i, points, 0) == Some(i + |ExponentOf(exponent)|)
  {
    hide EndOfNumber;
    if exponent.Some? {
      var sign := if exponent.value.sign.Some? then [exponent.value.sign.value] else "";
      SignedExponentScanned(s, i, sign, exponent.value.digits, points);
    } else {
      NumberStops(s, i, points, 0);
    }
  }

  lemma SignedExponentScanned(s: string, i: nat, sign: string, digits: string, points: nat)
    requires CString(s) && sign in {"", "-", "+"} && Digits(digits) && Sits(s, i, "e" + sign + digits)
    requires At(s, i + |"e" + sign + digits|) in {NUL, QC_DELIM}
    ensures EndOfNumber(s, i, points, 0) == Some(i + |"e" + sign + digits|)
  {
    hide EndOfNumber, Sits;
    assert digits[0] in digits;
    SitsBoth(s, i, "e" + sign, digits);
    SitsBoth(s, i, "e", sign);
    ExponentStep(s, i, points);
    DigitsScanned(s, i + 1 + |sign|, digits, points, 1);
    NumberStops(s, i + |"e" + sign + digits|, points, 1);
  }

  lemma FractionScanned(s: string, i: nat, fraction: Option<string>)
    requires (fraction.Some? ==> Digits(fraction.value)) && Sits(s, i, FractionOf(fraction))
    ensures EndOfNumber(s, i, 0, 0) == EndOfNumber(s, i + |FractionOf(fraction)|, if fraction.Some? then 1 else 0, 0)
  {
    hide EndOfNumber, Sits;
    if fraction.Some? {
      SitsBoth(s, i, ".", fraction.value);
      PointStep(s, i);
      DigitsScanned(s, i + 1, fraction.value, 1, 0);
    }
  }

  lemma DigitsThenFraction(s: string, i: nat, digits: string, fraction: Option<string>)
    requires Digits(digits) && (fraction.Some? ==> Digits(fraction.value)) && Sits(s, i, digits + FractionOf(fraction))
    ensures EndOfNumber(s, i, 0, 0) ==
      EndOfNumber(s, i + |digits + FractionOf(fraction)|, if fraction.Some? then 1 else 0, 0)
    ensures i < |s| && IsDigit(s[i])
  {
    hide EndOfNumber, FractionOf;
    SitsBoth(s, i, digits, FractionOf(fraction));
    assert digits[0] in digits;
    DigitsScanned(s, i, digits, 0, 0);
    FractionScanned(s, i + |digits|, fraction);
  }

  lemma UnsignedScanned(s: string, i: nat, digits: string, fraction: Option<string>, exponent: Option<Exponent>)
    requires CString(s) && Digits(digits) && (fraction.Some? ==> Digits(fraction.value)) && GoodExponent(exponent)
    requires Sits(s, i, Unsigned(digits, fraction, exponent))
    requires At(s, i + |Unsigned(digits, fraction, exponent)|) in {NUL, QC_DELIM}
    ensures EndOfNumber(s, i, 0, 0) == Some(i + |Unsigned(digits, fraction, exponent)|)
    ensures i < |s| && IsDigit(s[i])
  {
    hide EndOfNumber, FractionOf, ExponentOf, GoodExponent, Digits, Sits;
    var front := digits + FractionOf(fraction);
    SitsBoth(s, i, front, ExponentOf(exponent));
    DigitsThenFraction(s, i, digits, fraction);
    ExponentScanned(s, i + |front|, exponent, if fraction.Some? then 1 else 0);
  }

  lemma NumberScanned(s: string, i: nat, l: Literal)
    requires CString(s) && l.Number? && Printable(l) && Sits(s, i, Print(l)) && At(s, i + |Print(l)|) in {NUL, QC_DELIM}
    ensures EndOfPart(s, i) == Some(i + |Print(l)|)
  {
    hide EndOfNumber, EndOfPart, Unsigned, GoodExponent, Digits, Sits;
    var sign, unsigned := if l.negative then "-" else "", Unsigned(l.digits, l.fraction, l.exponent);
    assert Print(l) == sign + unsigned;
    SitsBoth(s, i, sign, unsigned);
    UnsignedScanned(s, i + |sign|, l.digits, l.fraction, l.exponent);
    NumberStarts(s, i);
  }

  lemma TextIsPart(s: string, i: nat, chars: string)
    requires Sits(s, i, "'" + Doubled(chars) + "'") && At(s, i + |Doubled(chars)| + 2) != '\''
    ensures EndOfPart(s, i) == Some(i + |Doubled(chars)| + 2)
  {
    assert "'" + Doubled(chars) + "'" == "'" + (Doubled(chars) + "'");
    SitsBoth(s, i, "'", Doubled(chars) + "'");
    LiteralScanned(s, i + 1, chars);
  }

  lemma BlobIsPart(s: string, i: nat, hex: string)
    requires '\'' !in hex && Sits(s, i, "X'" + hex + "'") && At(s, i + |hex| + 3) != '\''
    ensures EndOfPart(s, i) == Some(i + |hex| + 3)
  {
    DoubledPlain(hex);
    assert "X'" + hex + "'" == "X" + ("'" + (hex + "'"));
    SitsBoth(s, i, "X", "'" + (hex + "'"));
    SitsBoth(s, i + 1, "'", hex + "'");
    LiteralScanned(s, i + 2, hex);
  }

  /** A printed literal is scanned to its end, whatever it contains. */
  lemma LiteralIsPart(s: string, i: nat, l: Literal)
    requires CString(s) && Printable(l) && Sits(s, i, Print(l)) && At(s, i + |Print(l)|) in {NUL, QC_DELIM}
    ensures EndOfPart(s, i) == Some(i + |Print(l)|)
  {
    match l
    case Text(chars) => TextIsPart(s, i, chars);
    case Blob(hex) => BlobIsPart(s, i, hex);
    case Null => SitsBoth(s, i, "N", "ULL") by { assert "N" + "ULL" == "NULL"; }
    case Number(_, _, _, _) => NumberScanned(s, i, l);
  }

  /** Round trip: splitting what was joined gives back the printed literals. */
  lemma {:induction false} SplitFromJoin(literals: seq<Literal>, s: string, i: nat)
    requires forall l | l in literals :: Printable(l)
    requires CString(s) && i <= |s| && s[i..] == Join(Prints(literals), QC_DELIM)
    ensures SplitFrom(s, i, |literals|) == Some(Prints(literals))
    decreases |literals|
  {
    hide EndOfPart, Print, Sits, Printable;
    if literals != [] {
      var rest, p := literals[1..], Print(literals[0]);
      PrintsSplit(literals);
      JoinSits(s, i, p, Prints(rest));
      LiteralIsPart(s, i, literals[0]);
      SplitStep(s, i, |literals|, i + |p|);
      SplitFromJoin(rest, s, Skip(s, i + |p|));
    }
  }

  /** A joined list at the end of a string: its first part, and the others behind the delimiter. */
  lemma JoinSits(s: string, i: nat, p: string, rest: seq<string>)
    requires CString(s) && i <= |s| && p != "" && s[i..] == Join([p] + rest, QC_DELIM)
    ensures Sits(s, i, p) && At(s, i + |p|) in {NUL, QC_DELIM} && s[Skip(s, i + |p|)..] == Join(rest, QC_DELIM)
    ensures i < |s| && s[i..i + |p|] == p
  {
    assert ([p] + rest)[1..] == rest;
    var tail := if rest == [] then "" else [QC_DELIM] + Join(rest, QC_DELIM);
    PieceSits(s, i, p, tail);
    if rest != [] { assert tail[1..] == Join(rest, QC_DELIM); }
  }

  lemma PieceSits(s: string, i: nat, p: string, tail: string)
    requires i <= |s| && s[i..] == p + tail
    ensures Sits(s, i, p) && s[i + |p|..] == tail && s[i..i + |p|] == p
    ensures tail != "" ==> i + |p| < |s| && s[i + |p|] == tail[0] && s[i + |p| + 1..] == tail[1..]
  {
    assert s[i + |p|..] == s[i..][|p|..];
  }

  lemma SplitStep(s: string, i: nat, n: nat, end: nat)
    requires i < |s| && n > 0 && EndOfPart(s, i) == Some(end)
    ensures SplitFrom(s, i, n) == Behind([s[i..end]], SplitFrom(s, Skip(s, end), n - 1))
  {
  }

  lemma PrintsSplit(literals: seq<Literal>)
    requires literals != [] && Printable(literals[0])
    ensures Prints(literals) == [Print(literals[0])] + Prints(literals[1..]) && Print(literals[0]) != ""
  {
  }

  /** `crsql_quoteConcat` on one side, `crsql_splitQuoteConcat` with the number of key columns on the
      other. */
  lemma SplitJoin(literals: seq<Literal>)
    requires forall l | l in literals :: Printable(l)
    ensures Split(Join(Prints(literals), QC_DELIM), |literals|) == Some(Prints(literals))
  {
    JoinIsCString(literals);
    SplitFromJoin(literals, Join(Prints(literals), QC_DELIM), 0);
  }

  lemma {:induction false} DoubledIsCString(s: string)
    requires CString(s)
    ensures CString(Doubled(s))
  {
    if s != "" { DoubledIsCString(s[1..]); }
  }

  lemma {:induction false} JoinIsCString(literals: seq<Literal>)
    requires forall l | l in literals :: Printable(l)
    ensures CString(Join(Prints(literals), QC_DELIM))
  {
    if literals != [] {
      PrintsSplit(literals);
      PrintIsCString(literals[0]);
      JoinIsCString(literals[1..]);
    }
  }

  lemma PrintIsCString(l: Literal)
    requires Printable(l)
    ensures CString(Print(l))
  {
    hide Unsigned, GoodExponent, Digits, Doubled;
    if l.Text? { DoubledIsCString(l.chars); }
    if l.Number? { UnsignedIsCString(l.digits, l.fraction, l.exponent); }
  }

  lemma UnsignedIsCString(digits: string, fraction: Option<string>, exponent: Option<Exponent>)
    requires Digits(digits) && (fraction.Some? ==> Digits(fraction.value)) && GoodExponent(exponent)
    ensures CString(Unsigned(digits, fraction, exponent))
  {
    assert CString(digits) && CString(FractionOf(fraction));
    assert CString(ExponentOf(exponent));
    hide FractionOf, ExponentOf;
  }

  // ---- The encoding is injective ----------------------------------------------------------

  lemma {:induction false} DoubledInjective(x: string, y: string)
    requires Doubled(x) == Doubled(y)
    ensures x == y
  {
    if x != "" && y != "" {
      var k := if x[0] == '\'' then 2 else 1;
      assert x[0] == Doubled(x)[0] == Doubled(y)[0] == y[0];
      assert Doubled(x)[k..] == Doubled(x[1..]) && Doubled(y)[k..] == Doubled(y[1..]);
      DoubledInjective(x[1..], y[1..]);
      assert x == [x[0]] + x[1..] && y == [y[0]] + y[1..];
    }
  }

  /** How many digits a string starts with. */
  function DigitCount(s: string): (n: nat)
    ensures n <= |s|
  {
    if s != "" && IsDigit(s[0]) then 1 + DigitCount(s[1..]) else 0
  }

  lemma {:induction false} DigitCountOf(digits: string, rest: string)
    requires (forall c | c in digits :: IsDigit(c)) && (rest != "" ==> !IsDigit(rest[0]))
    ensures DigitCount(digits + rest) == |digits|
  {
    if digits == "" {
      assert "" + rest == rest;
    } else {
      assert digits[0] in digits && (digits + rest)[1..] == digits[1..] + rest;
      DigitCountOf(digits[1..], rest);
    }
  }

  /** The digits a string starts with are fixed by the string. */
  lemma DigitsInjective(a: string, b: string, x: string, y: string)
    requires a + x == b + y && (forall c | c in a :: IsDigit(c)) && (forall c | c in b :: IsDigit(c))
    requires (x != "" ==> !IsDigit(x[0])) && (y != "" ==> !IsDigit(y[0]))
    ensures a == b && x == y
  {
    DigitCountOf(a, x);
    DigitCountOf(b, y);
    assert a == (a + x)[..|a|] == (b + y)[..|b|] == b;
    assert x == (a + x)[|a|..] == (b + y)[|b|..] == y;
  }

  lemma ExponentInjective(x: Option<Exponent>, y: Option<Exponent>)
    requires GoodExponent(x) && GoodExponent(y) && ExponentOf(x) == ExponentOf(y)
    ensures x == y
  {
    if x.Some? && y.Some? {
      var p, dx, dy := ExponentOf(x), x.value.digits, y.value.digits;
      assert dx[0] in dx && dy[0] in dy;
      assert x.value.sign.Some? <==> p[1] in {'-', '+'};
      var k := if p[1] in {'-', '+'} then 2 else 1;
      assert p[k..] == dx && p[k..] == dy;
    }
  }

  lemma FractionInjective(f: Option<string>, g: Option<string>, x: string, y: string)
    requires (f.Some? ==> Digits(f.value)) && (g.Some? ==> Digits(g.value))
    requires (x != "" ==> x[0] == 'e') && (y != "" ==> y[0] == 'e') && FractionOf(f) + x == FractionOf(g) + y
    ensures f == g && x == y
  {
    hide FractionOf, Digits;
    FractionStarts(f, x);
    FractionStarts(g, y);
    if f.Some? {
      DigitsOnly(f.value);
      DigitsOnly(g.value);
      DigitsInjective(f.value, g.value, x, y);
    }
  }

  lemma DigitsOnly(s: string)
    requires Digits(s)
    ensures forall c | c in s :: IsDigit(c)
  {
  }

  /** A point shows at once, and what is behind it are the digits and the rest. */
  lemma FractionStarts(f: Option<string>, rest: string)
    requires rest != "" ==> rest[0] == 'e'
    ensures var p := FractionOf(f) + rest;
      (f.Some? <==> p != "" && p[0] == '.') && (p != "" ==> p[0] in {'.', 'e'}) &&
      (if f.Some? then p[1..] == f.value + rest else p == rest)
  {
  }

  lemma NumberInjective(x: Literal, y: Literal)
    requires x.Number? && y.Number? && Printable(x) && Printable(y) && Print(x) == Print(y)
    ensures x == y
  {
    hide ExponentOf, FractionOf;
    ExponentStarts(x.exponent);
    ExponentStarts(y.exponent);
    var tx, ty := FractionOf(x.fraction) + ExponentOf(x.exponent), FractionOf(y.fraction) + ExponentOf(y.exponent);
    FractionStarts(x.fraction, ExponentOf(x.exponent));
    FractionStarts(y.fraction, ExponentOf(y.exponent));
    NumberStart(x);
    NumberStart(y);
    assert x.digits + tx == y.digits + ty;
    DigitsInjective(x.digits, y.digits, tx, ty);
    FractionInjective(x.fraction, y.fraction, ExponentOf(x.exponent), ExponentOf(y.exponent));
    ExponentInjective(x.exponent, y.exponent);
  }

  lemma ExponentStarts(e: Option<Exponent>)
    ensures ExponentOf(e) != "" ==> ExponentOf(e)[0] == 'e'
  {
  }

  /** A sign shows at once, and what is behind it are the digits and the rest. */
  lemma NumberStart(l: Literal)
    requires l.Number? && Printable(l)
    ensures var p := Print(l);
      p != "" && (l.negative <==> p[0] == '-') && (p[0] == '-' || IsDigit(p[0])) &&
      p[if l.negative then 1 else 0..] == l.digits + (FractionOf(l.fraction) + ExponentOf(l.exponent))
  {
    hide ExponentOf, FractionOf;
    assert l.digits[0] in l.digits;
    assert Unsigned(l.digits, l.fraction, l.exponent) == l.digits + (FractionOf(l.fraction) + ExponentOf(l.exponent));
  }

  /** The first character tells what kind of literal follows. */
  lemma PrintStart(l: Literal)
    requires Printable(l)
    ensures Print(l) != "" && var c := Print(l)[0];
      (l.Text? <==> c == '\'') && (l.Blob? <==> c == 'X') && (l.Null? <==> c == 'N') &&
      (l.Number? <==> c == '-' || IsDigit(c))
  {
    if l.Number? { NumberStart(l); }
  }

  /** `quote()` prints different values differently. */
  lemma PrintInjective(x: Literal, y: Literal)
    requires Printable(x) && Printable(y) && Print(x) == Print(y)
    ensures x == y
  {
    PrintStart(x);
    PrintStart(y);
    hide Unsigned;
    var p := Print(x);
    if x.Number? && y.Number? {
      NumberInjective(x, y);
    } else if x.Text? && y.Text? {
      assert p[1..|p| - 1] == Doubled(x.chars) && p[1..|p| - 1] == Doubled(y.chars);
      DoubledInjective(x.chars, y.chars);
    } else if x.Blob? && y.Blob? {
      assert p[2..|p| - 1] == x.hex && p[2..|p| - 1] == y.hex;
    }
  }

  // ---- Which parts are taken --------------------------------------------------------------

  /** From i on at most one c, and none when there was one before. */
  predicate Once(s: string, i: nat, c: char, seen: nat) {
    (seen > 0 ==> forall k | i <= k < |s| :: s[k] != c) && forall j, k | i <= j < k < |s| :: !(s[j] == c && s[k] == c)
  }

  /** Digits, a point and an 'e', in any order, and a sign only right behind the 'e'. */
  predicate NumberShaped(s: string, i: nat, points: nat, exponents: nat) {
    (forall k | i <= k < |s| ::
      IsDigit(s[k]) || s[k] in {'.', 'e'} || (k > i && s[k] in {'-', '+'} && s[k - 1] == 'e')) &&
    Once(s, i, '.', points) && Once(s, i, 'e', exponents)
  }

  lemma ShapedNext(s: string, i: nat, points: nat, exponents: nat)
    requires i < |s|
    ensures IsDigit(s[i]) ==> (NumberShaped(s, i, points, exponents) <==> NumberShaped(s, i + 1, points, exponents))
    ensures s[i] == '.' ==>
      (NumberShaped(s, i, points, exponents) <==> points == 0 && NumberShaped(s, i + 1, 1, exponents))
    ensures !IsDigit(s[i]) && s[i] !in {'.', 'e'} ==> !NumberShaped(s, i, points, exponents)
  {
  }

  lemma ShapedExponent(s: string, i: nat, points: nat, exponents: nat)
    requires i < |s| && s[i] == 'e'
    ensures NumberShaped(s, i, points, exponents) <==>
      exponents == 0 && NumberShaped(s, if At(s, i + 1) in {'-', '+'} then i + 2 else i + 1, points, 1)
  {
  }

  /** Exactly the rest of the string is taken for a number. */
  lemma {:induction false} NumberTakenIff(s: string, i: nat, points: nat, exponents: nat)
    requires i <= |s|
    ensures EndOfNumber(s, i, points, exponents) == Some(|s|) <==> NumberShaped(s, i, points, exponents)
    decreases |s| - i
  {
    hide EndOfNumber, NumberShaped;
    NumberStep(s, i, points, exponents);
    if i == |s| {
      ShapedEnd(s, points, exponents);
    } else {
      ShapedNext(s, i, points, exponents);
      if IsDigit(s[i]) {
        NumberTakenIff(s, i + 1, points, exponents);
      } else if s[i] == '.' {
        if points == 0 { NumberTakenIff(s, i + 1, 1, exponents); }
      } else if s[i] == 'e' {
        ShapedExponent(s, i, points, exponents);
        if exponents == 0 {
          NumberTakenIff(s, if At(s, i + 1) in {'-', '+'} then i + 2 else i + 1, points, 1);
        }
      }
    }
  }

  lemma ShapedEnd(s: string, points: nat, exponents: nat)
    ensures NumberShaped(s, |s|, points, exponents)
  {
  }

  /** Something in quotes, with every quote inside of it doubled, behind a prefix. */
  ghost predicate InQuotes(p: string, prefix: string) {
    exists chars :: p == (prefix + "'") + (Doubled(chars) + "'")
  }

  lemma QuotedFrom(p: string, prefix: string)
    requires CString(p) && |p| > |prefix| && p[..|prefix| + 1] == prefix + "'"
    requires EndOfLiteral(p, |prefix| + 1) == Some(|p|)
    ensures InQuotes(p, prefix)
  {
    hide EndOfLiteral, Doubled, CString, InQuotes;
    var chars := TextOf(p, |prefix| + 1);
    QuotedIs(p, |prefix| + 1, prefix, chars, prefix + "'", Doubled(chars) + "'");
  }

  lemma QuotedIs(p: string, n: nat, prefix: string, chars: string, front: string, rest: string)
    requires n <= |p| && p[..n] == front && p[n..] == rest && front == prefix + "'" && rest == Doubled(chars) + "'"
    ensures InQuotes(p, prefix)
  {
    hide Doubled;
    assert p == p[..n] + p[n..];
    assert p == front + rest;
  }

  lemma TailSits(p: string, front: string, rest: string)
    requires p == front + rest
    ensures Sits(p, |front|, rest) && |p| == |front| + |rest|
  {
  }

  lemma QuotedScanned(p: string, i: nat, chars: string)
    requires Sits(p, i, Doubled(chars) + "'") && |p| == i + |Doubled(chars)| + 1
    ensures EndOfLiteral(p, i) == Some(|p|)
  {
    hide EndOfLiteral, Doubled, Sits;
    LiteralScanned(p, i, chars);
  }

  lemma InQuotesIff(p: string, prefix: string)
    requires CString(p) && |p| > |prefix| && p[..|prefix| + 1] == prefix + "'"
    ensures EndOfLiteral(p, |prefix| + 1) == Some(|p|) <==> InQuotes(p, prefix)
  {
    hide EndOfLiteral, Doubled, Sits;
    if EndOfLiteral(p, |prefix| + 1) == Some(|p|) { QuotedFrom(p, prefix); }
    if InQuotes(p, prefix) {
      var chars :| p == (prefix + "'") + (Doubled(chars) + "'");
      TailSits(p, prefix + "'", Doubled(chars) + "'");
      QuotedScanned(p, |prefix + "'"|, chars);
    }
  }

  /** Exactly which strings the splitter takes for one part. */
  lemma PartTakenIff(p: string)
    requires CString(p)
    ensures EndOfPart(p, 0) == Some(|p|) <==>
      if p != "" && p[0] == '\'' then InQuotes(p, "")
      else if p != "" && p[0] == 'X' then InQuotes(p, "X")
      else if p != "" && p[0] == 'N' then |p| == 4
      else NumberShaped(p, if p != "" && p[0] == '-' then 1 else 0, 0, 0)
  {
    hide EndOfLiteral, EndOfNumber, NumberShaped, InQuotes;
    if p != "" && p[0] == '\'' {
      assert p[..1] == "" + "'";
      InQuotesIff(p, "");
    } else if p != "" && p[0] == 'X' {
      if At(p, 1) == '\'' {
        assert p[..2] == "X" + "'";
        InQuotesIff(p, "X");
      } else {
        NoQuote(p);
      }
    } else if p == "" || p[0] != 'N' {
      NumberTakenIff(p, if p != "" && p[0] == '-' then 1 else 0, 0, 0);
    }
  }

  lemma NoQuote(p: string)
    requires p != "" && p[0] == 'X' && At(p, 1) != '\''
    ensures !InQuotes(p, "X")
  {
  }

  /** A text and a number, with the delimiter between them. */
  lemma SplitExample()
    ensures Split("'a'|12", 2) == Some(["'a'", "12"])
  {
    hide Split;
    var literals := [Text("a"), Number(false, "12", None, None)];
    DoubledPlain("a");
    assert Print(literals[0]) == "'a'" && Print(literals[1]) == "12";
    assert Prints(literals) == ["'a'", "12"];
    assert Join(["'a'", "12"], QC_DELIM) == "'a'|12";
    SplitJoin(literals);
  }

  // ---- Parts that are no literal ----------------------------------------------------------

  /** A printed blob has two digits for every byte. */
  predicate Quoted(l: Literal) {
    Printable(l) && (l.Blob? ==> |l.hex| % 2 == 0)
  }

  ghost predicate IsPrinted(p: string) {
    exists l :: Quoted(l) && Print(l) == p
  }

  predicate ProperExponent(s: string) {
    s == "" || (s[0] == 'e' && |s| > 1 && Digits(if s[1] in {'-', '+'} then s[2..] else s[1..]))
  }

  predicate ProperFraction(s: string) {
    if s != "" && s[0] == '.' then DigitCount(s[1..]) > 0 && ProperExponent(s[1..][DigitCount(s[1..])..])
    else ProperExponent(s)
  }

  /** Digits, with digits behind a point and behind an exponent. */
  predicate ProperNumber(s: string) {
    DigitCount(s) > 0 && ProperFraction(s[DigitCount(s)..])
  }

  predicate ProperBlob(p: string) {
    |p| >= 3 && |p| % 2 == 1 && forall c | c in p[2..|p| - 1] :: IsDigit(c) || 'A' <= c <= 'F'
  }

  /** What a part has to be besides, to be a literal: nothing more when it is a text. */
  predicate Proper(p: string) {
    p != "" &&
    if p[0] == '\'' then true
    else if p[0] == 'X' then ProperBlob(p)
    else if p[0] == 'N' then p == "NULL"
    else ProperNumber(if p[0] == '-' then p[1..] else p)
  }

  lemma {:induction false} DigitCountDigits(s: string)
    ensures DigitCount(s) <= |s| && forall c | c in s[..DigitCount(s)] :: IsDigit(c)
    ensures DigitCount(s) < |s| ==> !IsDigit(s[DigitCount(s)])
  {
    if s != "" && IsDigit(s[0]) {
      DigitCountDigits(s[1..]);
      assert s[..DigitCount(s)] == [s[0]] + s[1..][..DigitCount(s[1..])];
    }
  }

  /** The text that a part in quotes doubles. */
  lemma {:induction false} TextOf(s: string, i: nat) returns (chars: string)
    requires CString(s) && i <= |s| && EndOfLiteral(s, i) == Some(|s|)
    ensures CString(chars) && s[i..] == Doubled(chars) + "'"
    decreases |s| - i
  {
    hide Doubled, EndOfLiteral;
    LiteralStep(s, i);
    assert s[i..] == [s[i]] + s[i + 1..];
    if s[i] != '\'' {
      var rest := TextOf(s, i + 1);
      chars := [s[i]] + rest;
      DoubledMore(s[i], rest);
    } else if At(s, i + 1) != '\'' {
      chars := "";
      DoubledNothing();
    } else {
      var rest := TextOf(s, i + 2);
      chars := "'" + rest;
      DoubledMore('\'', rest);
      assert s[i + 1..] == "'" + s[i + 2..];
    }
  }

  lemma DoubledMore(c: char, rest: string)
    ensures Doubled([c] + rest) == (if c == '\'' then "''" else [c]) + Doubled(rest)
  {
    assert ([c] + rest)[1..] == rest;
  }

  lemma DoubledNothing()
    ensures Doubled("") == ""
  {
  }

  lemma TextPrinted(p: string)
    requires CString(p) && p != "" && p[0] == '\'' && EndOfLiteral(p, 1) == Some(|p|)
    ensures IsPrinted(p)
  {
    hide EndOfLiteral;
    var chars := TextOf(p, 1);
    assert p == "'" + p[1..];
    assert Quoted(Text(chars)) && Print(Text(chars)) == p;
  }

  /** A part that starts like a blob ends in a quote. */
  lemma BlobEnds(p: string)
    requires p != "" && p[0] == 'X' && EndOfPart(p, 0) == Some(|p|)
    ensures |p| >= 3 && p[1] == '\'' && p[|p| - 1] == '\''
  {
    hide EndOfLiteral;
  }

  lemma BlobFrom(p: string)
    requires p != "" && p[0] == 'X' && EndOfPart(p, 0) == Some(|p|) && ProperBlob(p)
    ensures Quoted(Blob(p[2..|p| - 1])) && Print(Blob(p[2..|p| - 1])) == p
  {
    hide EndOfPart;
    BlobEnds(p);
    assert p == "X'" + p[2..|p| - 1] + "'";
  }

  lemma BlobProper(l: Literal)
    requires Quoted(l) && l.Blob?
    ensures ProperBlob(Print(l))
  {
    assert Print(l)[2..|Print(l)| - 1] == l.hex;
  }

  lemma BlobPrintedIff(p: string)
    requires p != "" && p[0] == 'X' && EndOfPart(p, 0) == Some(|p|)
    ensures IsPrinted(p) <==> ProperBlob(p)
  {
    hide EndOfPart, ProperBlob, Print, Printable;
    BlobEnds(p);
    if ProperBlob(p) {
      BlobFrom(p);
      assert Quoted(Blob(p[2..|p| - 1])) && Print(Blob(p[2..|p| - 1])) == p;
    }
    if IsPrinted(p) {
      var l :| Quoted(l) && Print(l) == p;
      PrintStart(l);
      BlobProper(l);
    }
  }

  lemma NullPrintedIff(p: string)
    requires p != "" && p[0] == 'N'
    ensures IsPrinted(p) <==> p == "NULL"
  {
    if IsPrinted(p) {
      var l :| Quoted(l) && Print(l) == p;
      PrintStart(l);
    }
    if p == "NULL" { assert Quoted(Null) && Print(Null) == p; }
  }

  lemma ExponentProper(e: Option<Exponent>)
    requires GoodExponent(e)
    ensures ProperExponent(ExponentOf(e))
  {
    if e.Some? {
      var p, digits := ExponentOf(e), e.value.digits;
      assert digits[0] in digits;
      if e.value.sign.Some? {
        assert p[1] == e.value.sign.value && p[2..] == digits;
      } else {
        assert p[1] == digits[0] && p[1..] == digits;
      }
    }
  }

  lemma ExponentFrom(s: string) returns (e: Option<Exponent>)
    requires ProperExponent(s)
    ensures GoodExponent(e) && ExponentOf(e) == s
  {
    if s == "" { return None; }
    if s[1] in {'-', '+'} {
      assert s == "e" + [s[1]] + s[2..];
      return Some(Exponent(Some(s[1]), s[2..]));
    }
    assert s == "e" + "" + s[1..];
    return Some(Exponent(None, s[1..]));
  }

  lemma NumberProper(l: Literal)
    requires l.Number? && Printable(l)
    ensures ProperNumber(l.digits + (FractionOf(l.fraction) + ExponentOf(l.exponent)))
  {
    hide ExponentOf, FractionOf, DigitCount, GoodExponent, ProperExponent, Digits;
    var e := ExponentOf(l.exponent);
    var tail := FractionOf(l.fraction) + e;
    ExponentProper(l.exponent);
    ExponentStarts(l.exponent);
    FractionStarts(l.fraction, e);
    DigitsOnly(l.digits);
    DigitsSome(l.digits);
    DigitCountOf(l.digits, tail);
    assert (l.digits + tail)[|l.digits|..] == tail;
    if l.fraction.Some? {
      var f := l.fraction.value;
      DigitsOnly(f);
      DigitsSome(f);
      DigitCountOf(f, e);
      assert (f + e)[|f|..] == e;
    }
  }

  lemma DigitsSome(s: string)
    requires Digits(s)
    ensures s != ""
  {
  }

  lemma FractionFrom(s: string) returns (f: Option<string>, e: Option<Exponent>)
    requires ProperFraction(s)
    ensures (f.Some? ==> Digits(f.value)) && GoodExponent(e) && s == FractionOf(f) + ExponentOf(e)
  {
    hide GoodExponent, ExponentOf, ProperExponent, DigitCount;
    if s != "" && s[0] == '.' {
      var n := DigitCount(s[1..]);
      DigitCountDigits(s[1..]);
      e := ExponentFrom(s[1..][n..]);
      f := Some(s[1..][..n]);
      assert s == "." + s[1..][..n] + s[1..][n..];
    } else {
      e := ExponentFrom(s);
      f := None;
      assert s == "" + s;
    }
  }

  lemma NumberFrom(s: string, negative: bool) returns (l: Literal)
    requires ProperNumber(s)
    ensures l.Number? && Printable(l) && Print(l) == (if negative then "-" else "") + s
  {
    hide GoodExponent, ExponentOf, FractionOf, ProperFraction, DigitCount;
    var n := DigitCount(s);
    DigitCountDigits(s);
    var f, e := FractionFrom(s[n..]);
    l := Number(negative, s[..n], f, e);
    assert s == s[..n] + (FractionOf(f) + ExponentOf(e));
    assert Unsigned(s[..n], f, e) == s;
  }

  lemma NumberPrintedIff(p: string)
    requires p != "" && p[0] !in {'\'', 'X', 'N'}
    ensures IsPrinted(p) <==> ProperNumber(if p[0] == '-' then p[1..] else p)
  {
    hide ProperNumber, FractionOf, ExponentOf, Unsigned;
    var negative := p[0] == '-';
    var s := if negative then p[1..] else p;
    if ProperNumber(s) {
      var l := NumberFrom(s, negative);
      assert Print(l) == p;
      assert Quoted(l);
    }
    if IsPrinted(p) {
      var l :| Quoted(l) && Print(l) == p;
      PrintStart(l);
      NumberStart(l);
      NumberProper(l);
    }
  }

  /** Exactly which parts that the splitter takes are printed literals: every text, but of what starts
      like a blob, like NULL or otherwise only what is proper. The empty part is none. */
  lemma PartPrintedIff(p: string)
    requires CString(p) && EndOfPart(p, 0) == Some(|p|)
    ensures IsPrinted(p) <==> Proper(p)
  {
    hide IsPrinted, ProperBlob, ProperNumber, EndOfLiteral, EndOfNumber;
    if p == "" {
      EmptyNotPrinted();
    } else if p[0] == '\'' {
      TextPrinted(p);
    } else if p[0] == 'X' {
      BlobPrintedIff(p);
    } else if p[0] == 'N' {
      NullPrintedIff(p);
    } else {
      NumberPrintedIff(p);
    }
  }

  lemma EmptyNotPrinted()
    ensures !IsPrinted("")
  {
    if IsPrinted("") {
      var l :| Quoted(l) && Print(l) == "";
      PrintStart(l);
    }
  }

  /** A part that is taken and is no literal. */
  predicate Improper(p: string) {
    EndOfPart(p, 0) == Some(|p|) && !Proper(p)
  }

  /** Such as these. */
  lemma ImproperParts()
    ensures Improper("") && Improper("Nope") && Improper("-") && Improper(".") && Improper("1e") && Improper("X'z!'")
  {
    hide EndOfLiteral, EndOfNumber, Improper;
    ImproperNumbers();
    ImproperExponent();
    ImproperBlob();
    ImproperNull();
  }

  lemma ImproperNumbers()
    ensures Improper("") && Improper("-") && Improper(".")
  {
    hide EndOfNumber, EndOfLiteral;
    NumberStep("", 0, 0, 0);
    NumberStep("-", 1, 0, 0);
    NumberStep(".", 0, 0, 0);
    NumberStep(".", 1, 1, 0);
  }

  lemma ImproperNull()
    ensures Improper("Nope")
  {
    hide EndOfNumber, EndOfLiteral;
  }

  lemma ImproperExponent()
    ensures Improper("1e")
  {
    hide EndOfNumber, EndOfLiteral;
    NumberStep("1e", 0, 0, 0);
    NumberStep("1e", 1, 0, 0);
    NumberStep("1e", 2, 0, 1);
    assert "1e"[1..] == "e" && DigitCount("e") == 0;
  }

  lemma ImproperBlob()
    ensures Improper("X'z!'")
  {
    hide EndOfLiteral;
    var p := "X'z!'";
    LiteralStep(p, 2);
    LiteralStep(p, 3);
    LiteralStep(p, 4);
    assert EndOfPart(p, 0) == Some(5);
    var inside := p[2..|p| - 1];
    assert inside[0] == p[2] == 'z' && p[2] in inside;
    assert !IsDigit(p[2]) && !('A' <= p[2] <= 'F');
  }

  /** So rows with different keys never share an encoding. */
  lemma EncodingInjective(a: seq<Literal>, b: seq<Literal>)
    requires (forall l | l in a :: Printable(l)) && (forall l | l in b :: Printable(l)) && |a| == |b|
    requires Join(Prints(a), QC_DELIM) == Join(Prints(b), QC_DELIM)
    ensures a == b
  {
    hide Join, Split, Print, Printable;
    SplitJoin(a);
    SplitJoin(b);
    forall k | 0 <= k < |a| ensures a[k] == b[k] {
      assert Prints(a)[k] == Prints(b)[k];
      PrintInjective(a[k], b[k]);
    }
  }

  // ---- Joining into a buffer --------------------------------------------------------------

  function TotalLength(parts: seq<string>): nat {
    if parts == [] then 0 else TotalLength(parts[..|parts| - 1]) + |parts[|parts| - 1]|
  }

  /** `strcpy`: the characters and the NUL behind them. */
  method StrCpy(dest: array<char>, j: nat, src: string)
    requires j + |src| < dest.Length
    modifies dest
    ensures dest[..] == old(dest[..j]) + src + [NUL] + old(dest[j + |src| + 1..])
  {
    for k := 0 to |src|
      invariant forall m | 0 <= m < dest.Length ::
        dest[m] == if j <= m < j + k then src[m - j] else old(dest[m])
    {
      dest[j + k] := src[k];
    }
    dest[j + |src|] := NUL;
  }

  /** The first i strings, with the delimiter behind each that is not the last. */
  function JoinedSoFar(src: seq<string>, delim: char, i: nat): (r: string)
    requires i <= |src|
    ensures |r| == TotalLength(src[..i]) + (if i == |src| && i > 0 then i - 1 else i)
  {
    if i == 0 then "" else
      assert src[..i][..i - 1] == src[..i - 1];
      JoinedSoFar(src, delim, i - 1) + src[i - 1] + if i < |src| then [delim] else ""
  }

  lemma {:induction false} SoFarJoin(src: seq<string>, delim: char, i: nat)
    requires i < |src|
    ensures JoinedSoFar(src, delim, i) + Join(src[i..], delim) == Join(src, delim)
  {
    if i == 0 {
      assert src[0..] == src;
    } else {
      SoFarJoin(src, delim, i - 1);
      assert src[i - 1..][1..] == src[i..];
      var front, part, rest := JoinedSoFar(src, delim, i - 1), src[i - 1], Join(src[i..], delim);
      assert front + part + [delim] + rest == front + (part + [delim] + rest);
    }
  }

  lemma SoFarStarts(src: seq<string>, delim: char)
    requires src != []
    ensures JoinedSoFar(src, delim, 0) == "" && TotalLength(src) + |src| > 0
  {
  }

  lemma SoFarStep(src: seq<string>, delim: char, i: nat)
    requires i < |src|
    ensures JoinedSoFar(src, delim, i + 1) ==
      JoinedSoFar(src, delim, i) + src[i] + if i + 1 < |src| then [delim] else ""
    ensures |JoinedSoFar(src, delim, i + 1)| < TotalLength(src) + |src|
    ensures i + 1 == |src| ==> |JoinedSoFar(src, delim, i + 1)| == TotalLength(src) + |src| - 1
  {
    TotalLengthGrows(src, i + 1);
    if i + 1 == |src| { assert src[..i + 1] == src; }
  }

  lemma JoinedAll(src: seq<string>, delim: char)
    requires src != []
    ensures JoinedSoFar(src, delim, |src|) == Join(src, delim)
  {
    SoFarJoin(src, delim, |src| - 1);
    assert src[|src| - 1..] == [src[|src| - 1]];
  }

  lemma {:induction false} TotalLengthGrows(src: seq<string>, i: nat)
    requires i <= |src|
    ensures TotalLength(src[..i]) <= TotalLength(src)
    decreases |src| - i
  {
    if i == |src| {
      assert src[..i] == src;
    } else {
      assert src[..i + 1][..i] == src[..i];
      TotalLengthGrows(src, i + 1);
    }
  }

  /** `crsql_joinWith`: into a buffer with room for the parts, the delimiters and the NUL, it never
      writes past the end and fills it exactly. */
  method JoinWith(dest: array<char>, src: seq<string>, delim: char)
    requires src != [] && dest.Length == TotalLength(src) + |src|
    modifies dest
    ensures dest[..] == Join(src, delim) + [NUL]
  {
    hide JoinedSoFar, TotalLength, Join;
    SoFarStarts(src, delim);
    var j := 0;
    for i := 0 to |src|
      invariant j == |JoinedSoFar(src, delim, i)| < dest.Length
      invariant dest[..j] == JoinedSoFar(src, delim, i)
      invariant i == |src| ==> j == dest.Length - 1 && dest[j] == NUL
    {
      SoFarStep(src, delim, i);
      StrCpy(dest, j, src[i]);
      j := j + |src[i]|;
      if i < |src| - 1 {
        dest[j] := delim;
        j := j + 1;
      }
    }
    JoinedAll(src, delim);
    assert dest[..] == dest[..j] + [dest[j]];
  }

  /** `crsql_quotedValuesAsList` */
  method QuotedValuesAsList(parts: seq<string>) returns (ret: array<char>)
    requires parts != []
    ensures fresh(ret) && ret[..] == Join(parts, ',') + [NUL]
  {
    var len := 0;
    for i := 0 to |parts|
      invariant len == TotalLength(parts[..i])
    {
      assert parts[..i + 1][..i] == parts[..i];
      len := len + |parts[i]|;
    }
    assert parts[..|parts|] == parts;
    len := len + |parts| - 1;
    ret := new char[len + 1];
    JoinWith(ret, parts, ',');
  }

  /** `crsql_quoteConcatedValuesAsList` */
  method QuoteConcatedValuesAsList(vals: string, len: nat) returns (r: Option<array<char>>)
    requires CString(vals) && len > 0
    ensures match Split(vals, len)
            case None => r == None
            case Some(parts) => r.Some? && r.value[..] == Join(parts, ',') + [NUL]
  {
    var parts := SplitQuoteConcat(vals, len);
    if parts.None? { return None; }
    SplitLength(vals, 0, len);
    var list := QuotedValuesAsList(parts.value);
    return Some(list);
  }

  lemma {:induction false} SplitLength(s: string, i: nat, n: nat)
    requires i <= |s|
    ensures SplitFrom(s, i, n).Some? ==> |SplitFrom(s, i, n).value| == n
    decreases n
  {
    if n > 0 && i < |s| && EndOfPart(s, i).Some? { SplitLength(s, Skip(s, EndOfPart(s, i).value), n - 1); }
  }
}
