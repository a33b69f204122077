/** What texts are numbers, and which: the grammar behind `Number(text)` and the fractions around it. */
module NumberGrammar {
  import opened Text
  import opened Json
  import opened Numbers

  // ---------------------------------------------------------------- what digits are worth

  function Zeros(n: nat): string { if n == 0 then "" else Zeros(n - 1) + "0" }

  lemma {:induction false} ZerosAreDigits(n: nat)
    ensures |Zeros(n)| == n && forall i :: 0 <= i < n ==> Zeros(n)[i] == '0'
  {
    if n == 0 {
    } else {
      ZerosAreDigits(n - 1);
    }
  }

  predicate Digits(s: string) { forall i :: 0 <= i < |s| ==> IsDigit(s[i]) }

  /** The product, kept apart from the solver's arithmetic. */
  function Times(x: real, y: real): real { x * y }

  /** A zero behind a number multiplies it by ten, so `Pow10` counts zeros. */
  lemma {:induction false} ZerosMultiply(digits: string, n: nat)
    requires Digits(digits)
    ensures Digits(digits + Zeros(n)) && NatOf(digits + Zeros(n)) as real == Times(NatOf(digits) as real, Pow10(n))
  {
    ZerosAreDigits(n);
    if n == 0 {
      assert digits + "" == digits;
    } else {
      ZerosMultiply(digits, n - 1);
      var s := digits + Zeros(n);
      assert s[..|s| - 1] == digits + Zeros(n - 1);
      assert NatOf(s) == NatOf(s[..|s| - 1]) * 10 && Pow10(n) == 10.0 * Pow10(n - 1);
      hide NatOf, Pow10, Times, Zeros;
      TimesTen(NatOf(digits) as real, Pow10(n - 1));
    }
  }

  lemma {:induction false} TimesTen(x: real, y: real)
    ensures Times(x, 10.0 * y) == 10.0 * Times(x, y)
  {
  }

  lemma {:induction false} NatOfHead(c: char, s: string)
    requires IsDigit(c) && Digits(s)
    ensures Digits([c] + s)
    ensures NatOf([c] + s) as real == Times(DigitValue(c) as real, Pow10(|s|)) + NatOf(s) as real
  {
    var t := [c] + s;
    if s == "" {
      assert t[..0] == "";
    } else {
      var n := |s| - 1;
      NatOfHead(c, s[..n]);
      assert t[..n + 1] == [c] + s[..n];
      assert NatOf(t) == NatOf([c] + s[..n]) * 10 + DigitValue(s[n]);
      assert NatOf(s) == NatOf(s[..n]) * 10 + DigitValue(s[n]);
      assert Pow10(|s|) == 10.0 * Pow10(n);
      hide NatOf, Pow10, Times, DigitValue;
      TimesTen(DigitValue(c) as real, Pow10(n));
    }
  }

  /** The digits behind a point are the number they make, shifted by as many places. */
  lemma {:induction false} FractionIsShifted(s: string)
    requires Digits(s)
    ensures Times(FractionOf(s), Pow10(|s|)) == NatOf(s) as real
  {
    if s == "" {
      assert FractionOf(s) == 0.0;
    } else {
      FractionIsShifted(s[1..]);
      hide NatOf, FractionOf, Pow10, DigitValue, Times;
      NatOfHead(s[0], s[1..]);
      FractionHead(s);
      assert s == [s[0]] + s[1..];
      ShiftOnce(DigitValue(s[0]) as real, FractionOf(s[1..]), Pow10(|s| - 1));
    }
  }

  lemma {:induction false} ShiftOnce(d: real, f: real, p: real)
    ensures Times((d + f) / 10.0, 10.0 * p) == Times(d, p) + Times(f, p)
  {
    assert (d + f) / 10.0 * 10.0 == d + f;
  }

  lemma {:induction false} FractionHead(s: string)
    requires Digits(s) && s != ""
    ensures FractionOf(s) == (DigitValue(s[0]) as real + FractionOf(s[1..])) / 10.0
    ensures Pow10(|s|) == 10.0 * Pow10(|s| - 1)
  {
  }

  /** An exponent moves the point: to the right, or to the left when it is negative. */
  lemma {:induction false} ScaleMovesThePoint(digits: string, k: nat)
    requires Digits(digits)
    ensures Digits(digits + Zeros(k)) && Scale(NatOf(digits) as real, k) == NatOf(digits + Zeros(k)) as real
    ensures |digits| == k ==> Scale(NatOf(digits) as real, -(k as int)) == FractionOf(digits)
  {
    hide NatOf, FractionOf, Pow10, Zeros;
    ZerosMultiply(digits, k);
    if |digits| == k {
      FractionIsShifted(digits);
      Divides(FractionOf(digits), Pow10(k), NatOf(digits) as real);
      if k == 0 { Unscaled(digits); }
    }
  }

  lemma {:induction false} Unscaled(digits: string)
    requires digits == ""
    ensures Scale(NatOf(digits) as real, 0) == 0.0 && FractionOf(digits) == 0.0
  {
  }

  lemma {:induction false} Divides(f: real, p: real, n: real)
    requires p != 0.0 && Times(f, p) == n
    ensures n / p == f
  {
  }

  function RadixChar(d: nat): char
    requires d < 16
  {
    "0123456789ABCDEF"[d]
  }

  lemma {:induction false} RadixCharIsDigit(d: nat)
    requires d < 16
    ensures RadixDigit(RadixChar(d)) == d
  {
  }

  /** The digits of a number in a base up to 16. */
  function PrintRadix(n: nat, base: nat): string
    requires 2 <= base <= 16
  {
    var last := [RadixChar(n % base)];
    if n < base then last else PrintRadix(n / base, base) + last
  }

  lemma {:induction false} RadixRoundTrip(n: nat, base: nat)
    requires 2 <= base <= 16
    ensures PrintRadix(n, base) != "" && RadixValue(PrintRadix(n, base), base) == Some(n)
  {
    RadixCharIsDigit(n % base);
    if n < base {
      assert n % base == n;
    } else {
      RadixRoundTrip(n / base, base);
      RadixNext(PrintRadix(n / base, base), RadixChar(n % base), base, n / base);
      QuotientAndRest(n, base);
    }
  }

  lemma {:induction false} QuotientAndRest(n: nat, base: nat)
    requires base > 0
    ensures n / base * base + n % base == n
  {
  }

  lemma {:induction false} RadixNext(front: string, c: char, base: nat, q: nat)
    requires front != "" && RadixValue(front, base) == Some(q) && RadixDigit(c) < base
    ensures RadixValue(front + [c], base) == Some(q * base + RadixDigit(c))
  {
    hide RadixDigit;
    assert (front + [c])[..|front|] == front;
  }

  // ---------------------------------------------------------------- the grammar

  ghost predicate PointedParts(s: string, a: string, b: string, x: real) {
    s == a + "." + b && Digits(a) && Digits(b) && (a != "" || b != "") && x == NatOf(a) as real + FractionOf(b)
  }

  /** Digits, or digits with a point before, behind or between them. */
  ghost predicate Mantissa(s: string, x: real) {
    (AllDigits(s) && x == NatOf(s) as real) || exists a, b :: PointedParts(s, a, b, x)
  }

  predicate ExponentText(s: string, k: int) {
    || (AllDigits(s) && k == NatOf(s))
    || (s != "" && s[0] == '+' && AllDigits(s[1..]) && k == NatOf(s[1..]))
    || (s != "" && s[0] == '-' && AllDigits(s[1..]) && k == -(NatOf(s[1..]) as int))
  }

  ghost predicate ScaledParts(s: string, m: string, e: string, x: real, k: int, r: real) {
    (s == m + "e" + e || s == m + "E" + e) && Mantissa(m, x) && ExponentText(e, k) && r == Scale(x, k)
  }

  ghost predicate Unsigned(s: string, r: real) {
    Mantissa(s, r) || exists m, e, x, k :: ScaledParts(s, m, e, x, k, r)
  }

  predicate RadixPrefix(c: char, base: int) {
    ((c == 'x' || c == 'X') && base == 16) || ((c == 'o' || c == 'O') && base == 8) ||
    ((c == 'b' || c == 'B') && base == 2)
  }

  predicate RadixLiteral(s: string, base: int, r: real) {
    && |s| > 2 && s[0] == '0' && RadixPrefix(s[1], base)
    && RadixValue(s[2..], base).Some? && r == RadixValue(s[2..], base).value as real
  }

  /** A numeric literal of a string: decimal with an optional sign, or in base 16, 8 or 2 without one. */
  ghost predicate Literal(s: string, r: real) {
    || Unsigned(s, r)
    || (s != "" && s[0] == '+' && Unsigned(s[1..], r))
    || (s != "" && s[0] == '-' && Unsigned(s[1..], -r))
    || RadixLiteral(s, 16, r) || RadixLiteral(s, 8, r) || RadixLiteral(s, 2, r)
  }

  predicate FractionParts(s: string, n: string, d: string, r: real) {
    s == n + "/" + d && AllDigits(n) && AllDigits(d) && NatOf(d) != 0 && r == NatOf(n) as real / NatOf(d) as real
  }

  predicate MixedParts(s: string, w: string, gap: string, f: string, x: real, r: real) {
    s == w + gap + f && AllDigits(w) && gap != "" && AllSpace(gap) && r == NatOf(w) as real + x
  }

  /** A literal, a fraction, or a whole number, white space and a fraction. */
  ghost predicate ReadsAs(s: string, r: real) {
    || Literal(s, r)
    || (exists n, d :: FractionParts(s, n, d, r))
    || (exists w, gap, f, n, d, x :: MixedParts(s, w, gap, f, x, r) && FractionParts(f, n, d, x))
  }

  // ---------------------------------------------------------------- matcher = grammar, literals

  lemma {:induction false} ExponentMatches(s: string, k: int)
    ensures Exponent(s) == Some(k) <==> ExponentText(s, k)
  {
    hide NatOf;
  }

  lemma {:induction false} ExponentialMatches(x: real, tail: string, r: real)
    ensures Exponential(x, tail) == Some(r) <==>
      || (tail == "" && r == x)
      || (tail != "" && (tail[0] == 'e' || tail[0] == 'E')
          && exists k :: ExponentText(tail[1..], k) && r == Scale(x, k))
  {
    hide NatOf, ExponentText, Exponent;
    if tail != "" {
      forall k ensures Exponent(tail[1..]) == Some(k) <==> ExponentText(tail[1..], k) {
        ExponentMatches(tail[1..], k);
      }
    }
  }

  /** The mantissa at the start of a text and what follows it. */
  lemma {:induction false} DecimalOf(m: string, x: real, tail: string)
    requires Mantissa(m, x) && (tail != "" ==> tail[0] == 'e' || tail[0] == 'E')
    ensures Decimal(m + tail) == Exponential(x, tail)
  {
    hide NatOf, FractionOf, Exponential;
    hide Decimal;
    if AllDigits(m) && x == NatOf(m) as real {
      WholeOf(m, tail);
    } else {
      var a, b :| PointedParts(m, a, b, x);
      PointedOf(a, b, tail);
      assert m + tail == a + "." + (b + tail);
    }
  }

  lemma {:induction false} WholeOf(m: string, tail: string)
    requires AllDigits(m) && (tail != "" ==> tail[0] == 'e' || tail[0] == 'E')
    ensures Decimal(m + tail) == Exponential(NatOf(m) as real, tail)
  {
    hide NatOf, FractionOf, Exponential, DigitRun;
    DigitRunIs(m, tail);
    assert tail != "" ==> (m + tail)[|m|] == tail[0];
  }

  lemma {:induction false} PointedOf(a: string, b: string, tail: string)
    requires Digits(a) && Digits(b) && (a != "" || b != "")
    requires tail != "" ==> tail[0] == 'e' || tail[0] == 'E'
    ensures Decimal(a + "." + (b + tail)) == Exponential(NatOf(a) as real + FractionOf(b), tail)
  {
    hide NatOf, FractionOf, Exponential, DigitRun;
    var s := a + "." + (b + tail);
    assert s == a + ("." + (b + tail));
    DigitRunIs(a, "." + (b + tail));
    assert ("." + (b + tail))[1..] == b + tail;
    assert s[|a| + 1..] == b + tail && s[..|a|] == a && s[|a|] == '.';
    DigitRunIs(b, tail);
  }

  lemma {:induction false} DecimalSplits(s: string) returns (m: string, x: real, tail: string)
    requires Decimal(s).Some?
    ensures s == m + tail && Mantissa(m, x) && Decimal(s) == Exponential(x, tail)
    ensures tail != "" ==> tail[0] == 'e' || tail[0] == 'E'
  {
    hide NatOf, FractionOf, Exponential, DigitRun, WithPoint, Mantissa;
    var i := DigitRun(s);
    if i < |s| && s[i] == '.' {
      m, x, tail := PointSplits(s[..i], s[i + 1..]);
      assert s == s[..i] + "." + s[i + 1..];
    } else {
      m, x, tail := s[..i], NatOf(s[..i]) as real, s[i..];
      assert s == m + tail;
      assert Mantissa(m, x) by { WholeIsMantissa(m); }
      ExponentialTail(x, tail);
    }
  }

  lemma {:induction false} WholeIsMantissa(m: string)
    requires AllDigits(m)
    ensures Mantissa(m, NatOf(m) as real)
  {
  }

  lemma {:induction false} ExponentialTail(x: real, tail: string)
    ensures Exponential(x, tail).Some? && tail != "" ==> tail[0] == 'e' || tail[0] == 'E'
  {
    hide Exponent, Scale;
  }

  lemma {:induction false} PointSplits(a: string, rest: string) returns (m: string, x: real, tail: string)
    requires Digits(a) && WithPoint(a, rest).Some?
    ensures a + "." + rest == m + tail && Mantissa(m, x) && WithPoint(a, rest) == Exponential(x, tail)
    ensures tail != "" ==> tail[0] == 'e' || tail[0] == 'E'
  {
    hide NatOf, FractionOf, Exponential, DigitRun;
    var j := DigitRun(rest);
    var b := rest[..j];
    m, x, tail := a + "." + b, NatOf(a) as real + FractionOf(b), rest[j..];
    assert rest == b + tail;
    assert PointedParts(m, a, b, x);
    ExponentialTail(x, tail);
  }

  lemma {:induction false} DecimalMatches(s: string, r: real)
    ensures Decimal(s) == Some(r) <==> Unsigned(s, r)
  {
    hide NatOf, FractionOf, Decimal, Exponential, Mantissa, ExponentText, Scale;
    if Decimal(s) == Some(r) {
      var m, x, tail := DecimalSplits(s);
      ExponentialMatches(x, tail, r);
      if tail == "" {
        assert s == m;
      } else {
        var k :| ExponentText(tail[1..], k) && r == Scale(x, k);
        assert s == m + [tail[0]] + tail[1..];
        assert ScaledParts(s, m, tail[1..], x, k, r);
      }
    }
    if Unsigned(s, r) { UnsignedIsRead(s, r); }
  }

  lemma {:induction false} UnsignedIsRead(s: string, r: real)
    requires Unsigned(s, r)
    ensures Decimal(s) == Some(r)
  {
    hide NatOf, FractionOf, Decimal, Exponential, Mantissa, ExponentText, Scale;
    if Mantissa(s, r) {
      assert s + "" == s;
      DecimalOf(s, r, "");
      ExponentialMatches(r, "", r);
    } else {
      var m, e, x, k :| ScaledParts(s, m, e, x, k, r);
      var tail := s[|m|..];
      assert s == m + tail && tail[1..] == e;
      DecimalOf(m, x, tail);
      ExponentialMatches(x, tail, r);
    }
  }

  lemma {:induction false} UnsignedStart(s: string, r: real)
    requires Unsigned(s, r)
    ensures s != "" && (IsDigit(s[0]) || s[0] == '.') && (|s| > 1 ==> RadixOf(s[1]) == 0)
  {
    UnsignedIsRead(s, r);
    hide NatOf, FractionOf, Exponent;
  }

  /** `Number(text)` accepts exactly the literals, with their value. */
  lemma {:induction false} ToNumberMatchesGrammar(s: string, r: real)
    ensures ToNumber(s) == Some(r) <==> Literal(s, r)
  {
    hide Unsigned, Decimal, RadixValue, RadixOf, RadixPrefix, RadixLiteral;
    if Unsigned(s, r) { UnsignedStart(s, r); }
    DecimalMatches(s, r);
    if |s| >= 2 && s[0] == '0' && RadixOf(s[1]) != 0 {
      RadixMatches(s, r);
    } else {
      NoRadix(s, r);
      if s != "" {
        DecimalMatches(s[1..], r);
        DecimalMatches(s[1..], -r);
      }
    }
  }

  lemma {:induction false} RadixMatches(s: string, r: real)
    requires |s| >= 2 && s[0] == '0' && RadixOf(s[1]) != 0
    ensures ToNumber(s) == Some(r) <==> RadixLiteral(s, 16, r) || RadixLiteral(s, 8, r) || RadixLiteral(s, 2, r)
  {
    hide RadixValue, Decimal;
    RadixOfPrefix(s[1]);
    var base := RadixOf(s[1]);
    assert base in {16, 8, 2};
    hide RadixOf, RadixPrefix;
    if |s| == 2 {
      assert s[2..] == "";
      RadixOfNothing(base);
    }
  }

  lemma {:induction false} NoRadix(s: string, r: real)
    requires !(|s| >= 2 && s[0] == '0' && RadixOf(s[1]) != 0)
    ensures forall base :: !RadixLiteral(s, base, r)
  {
    hide RadixValue, RadixOf, RadixPrefix;
    if |s| >= 2 { RadixOfPrefix(s[1]); }
  }

  lemma {:induction false} RadixOfPrefix(c: char)
    ensures forall base :: RadixPrefix(c, base) <==> RadixOf(c) == base && base != 0
  {
  }

  lemma {:induction false} RadixOfNothing(base: int)
    ensures RadixValue("", base).None?
  {
  }

  // ---------------------------------------------------------------- matcher = grammar, fractions

  lemma {:induction false} FractionSplits(s: string) returns (n: string, d: string)
    requires MatchFraction(s).Some?
    ensures s == n + "/" + d && AllDigits(n) && AllDigits(d) && MatchFraction(s) == Some((NatOf(n), NatOf(d)))
  {
    var i := DigitRun(s);
    n, d := s[..i], s[i + 1..];
  }

  lemma {:induction false} MixedSplits(s: string) returns (w: string, gap: string, n: string, d: string)
    requires MatchMixed(s).Some?
    ensures s == w + gap + (n + "/" + d) && AllDigits(w) && gap != "" && AllSpace(gap) && AllDigits(n) && AllDigits(d)
    ensures MatchMixed(s) == Some((NatOf(w), NatOf(n), NatOf(d)))
  {
    hide NatOf, MatchFraction, TrimStart;
    var i := DigitRun(s);
    w := s[..i];
    var r;
    gap, r := SplitStart(s[i..]);
    n, d := FractionSplits(r);
    assert s == w + (gap + r);
  }

  lemma {:induction false} LiteralHasNoSlash(s: string, r: real)
    requires Literal(s, r)
    ensures MatchFraction(s).None? && MatchMixed(s).None?
  {
    ToNumberMatchesGrammar(s, r);
    NumberChars(s);
    hide ToNumber, Literal, MatchFraction, MatchMixed;
    if MatchFraction(s).Some? { FractionHasSlash(s); }
    if MatchMixed(s).Some? { MixedHasSlash(s); }
  }

  lemma {:induction false} FractionHasSlash(s: string)
    requires MatchFraction(s).Some?
    ensures !NumberText(s)
  {
    hide MatchFraction;
    var n, d := FractionSplits(s);
    assert s[|n|] == '/';
  }

  lemma {:induction false} MixedHasSlash(s: string)
    requires MatchMixed(s).Some?
    ensures !NumberText(s)
  {
    hide MatchMixed;
    var w, gap, n, d := MixedSplits(s);
    assert s[|w + gap + n|] == '/';
  }

  /** Texts are numbers exactly as the grammar says, after trimming and with the first comma as a point. */
  lemma {:induction false} ParseMatchesGrammar(value: string, r: real)
    ensures ParseStringNumber(value) == Some(r) <==> ReadsAs(CommaToPoint(Trim(value)), r)
  {
    hide NatOf, Literal, ToNumber, MatchMixed, MatchFraction, CommaToPoint, Trim;
    var s := CommaToPoint(Trim(value));
    ToNumberMatchesGrammar(s, r);
    if ParseStringNumber(value) == Some(r) { ParsedReadsAs(s, r); }
    if ReadsAs(s, r) { ReadingIsParsed(s, r); }
  }

  /** `ParseStringNumber` behind its first line. */
  function ParsePlain(s: string): Option<real> {
    if s == "" then None
    else if MatchMixed(s).Some? && MatchMixed(s).value.2 != 0 then
      Some(MatchMixed(s).value.0 as real + MatchMixed(s).value.1 as real / MatchMixed(s).value.2 as real)
    else if MatchFraction(s).Some? && MatchFraction(s).value.1 != 0 then
      Some(MatchFraction(s).value.0 as real / MatchFraction(s).value.1 as real)
    else ToNumber(s)
  }

  lemma {:induction false} ParsedReadsAs(s: string, r: real)
    requires ParsePlain(s) == Some(r)
    ensures ReadsAs(s, r)
  {
    hide NatOf, Literal, ToNumber, MatchMixed, MatchFraction;
    if MatchMixed(s).Some? && MatchMixed(s).value.2 != 0 {
      var w, gap, n, d := MixedSplits(s);
      var x := NatOf(n) as real / NatOf(d) as real;
      assert MixedParts(s, w, gap, n + "/" + d, x, r) && FractionParts(n + "/" + d, n, d, x);
    } else if MatchFraction(s).Some? && MatchFraction(s).value.1 != 0 {
      var n, d := FractionSplits(s);
      assert FractionParts(s, n, d, r);
    } else {
      ToNumberMatchesGrammar(s, r);
    }
  }

  lemma {:induction false} ReadingIsParsed(s: string, r: real)
    requires ReadsAs(s, r)
    ensures ParsePlain(s) == Some(r)
  {
    hide NatOf, Literal, ToNumber, MatchMixed, MatchFraction;
    if Literal(s, r) {
      ToNumberMatchesGrammar(s, r);
      LiteralHasNoSlash(s, r);
      assert s != "" by { hide *; EmptyIsNoLiteral(r); }
    } else if n, d :| FractionParts(s, n, d, r) {
      FractionMatches(n, d);
    } else {
      var w, gap, f, n, d, x :| MixedParts(s, w, gap, f, x, r) && FractionParts(f, n, d, x);
      MixedMatches(w, gap, n, d);
    }
  }

  // ---------------------------------------------------------------- numbers among values

  /** A value is the number `x`, or text that reads as it. */
  ghost predicate ReadsNumber(j: Json, x: real) {
    j == Num(x) || (j.Str? && ReadsAs(CommaToPoint(Trim(j.text)), x))
  }

  lemma {:induction false} FiniteNumberMatches(j: Json, x: real)
    ensures ToFiniteNumber(j) == Some(x) <==> ReadsNumber(j, x)
  {
    hide ParseStringNumber, ReadsAs;
    if j.Str? { ParseMatchesGrammar(j.text, x); }
  }

  /** `n` is a number from zero up that the value holds, rounded. */
  ghost predicate RoundedFrom0(j: Json, n: int) { exists x :: ReadsNumber(j, x) && x >= 0.0 && Nearest(x, n) }

  lemma {:induction false} NonNegativeIntegerMatches(j: Json, n: int)
    ensures ToNonNegativeInteger(j) == Some(n) <==> RoundedFrom0(j, n)
  {
    hide ToFiniteNumber, ReadsNumber, Round;
    forall x ensures ToFiniteNumber(j) == Some(x) <==> ReadsNumber(j, x) {
      FiniteNumberMatches(j, x);
    }
    forall x ensures Round(x) == n <==> Nearest(x, n) {
      RoundIsNearest(x, n);
    }
  }

  lemma {:induction false} EmptyIsNoLiteral(r: real)
    ensures !Literal("", r)
  {
    if Unsigned("", r) { UnsignedStart("", r); }
  }
}
