/** Reading numbers and fractions out of text. */
module Numbers {
  import opened Text
  import opened Json

  function DigitValue(c: char): nat
    requires IsDigit(c)
  {
    c as int - '0' as int
  }

  function NatOf(s: string): nat
    requires forall i :: 0 <= i < |s| ==> IsDigit(s[i])
  {
    if s == "" then 0 else NatOf(s[..|s| - 1]) * 10 + DigitValue(s[|s| - 1])
  }

  function PrintNat(n: nat): (s: string)
    ensures AllDigits(s)
  {
    var last := [(n % 10) as char + '0'];
    if n < 10 then last else PrintNat(n / 10) + last
  }

  lemma {:induction false} NatRoundTrip(n: nat)
    ensures NatOf(PrintNat(n)) == n
  {
    if n >= 10 {
      NatRoundTrip(n / 10);
      assert PrintNat(n)[..|PrintNat(n)| - 1] == PrintNat(n / 10);
    }
  }

  /** Length of the longest prefix of digits. */
  function DigitRun(s: string): (n: nat)
    ensures n <= |s|
    ensures forall i :: 0 <= i < n ==> IsDigit(s[i])
    ensures n < |s| ==> !IsDigit(s[n])
  {
    if s == "" || !IsDigit(s[0]) then 0 else 1 + DigitRun(s[1..])
  }

  lemma {:induction false} DigitRunIs(digits: string, tail: string)
    requires forall i :: 0 <= i < |digits| ==> IsDigit(digits[i])
    requires tail != "" ==> !IsDigit(tail[0])
    ensures DigitRun(digits + tail) == |digits|
    ensures (digits + tail)[..|digits|] == digits && (digits + tail)[|digits|..] == tail
  {
    var s := digits + tail;
    var n := DigitRun(s);
    assert forall i :: 0 <= i < |digits| ==> s[i] == digits[i];
    assert tail != "" ==> s[|digits|] == tail[0];
  }

  /** The digits after the decimal point. */
  function FractionOf(s: string): (r: real)
    requires forall i :: 0 <= i < |s| ==> IsDigit(s[i])
    ensures 0.0 <= r < 1.0
  {
    if s == "" then 0.0 else (DigitValue(s[0]) as real + FractionOf(s[1..])) / 10.0
  }

  function Pow10(n: nat): (p: real)
    ensures p > 0.0
  {
    if n == 0 then 1.0 else 10.0 * Pow10(n - 1)
  }

  // ---------------------------------------------------------------- Number(text)

  /** Digits of a `0x`, `0o` or `0b` literal. */
  function RadixDigit(c: char): int {
    if IsDigit(c) then DigitValue(c)
    else if 'a' <= Lower(c) <= 'f' then Lower(c) as int - 'a' as int + 10
    else 16
  }

  function RadixValue(s: string, base: int): Option<int> {
    if s == "" then None
    else
      var d := RadixDigit(s[|s| - 1]);
      if d >= base then None
      else if |s| == 1 then Some(d)
      else
        var front := RadixValue(s[..|s| - 1], base);
        if front.None? then None else Some(front.value * base + d)
  }

  function Exponent(s: string): Option<int> {
    var signed := s != "" && (s[0] == '+' || s[0] == '-');
    var digits := if signed then s[1..] else s;
    if !AllDigits(digits) then None
    else if signed && s[0] == '-' then Some(-(NatOf(digits) as int))
    else Some(NatOf(digits))
  }

  function Scale(mantissa: real, exponent: int): real {
    if exponent >= 0 then mantissa * Pow10(exponent) else mantissa / Pow10(-exponent)
  }

  /** An unsigned decimal literal: digits, at most one point, an optional exponent. */
  function Decimal(s: string): Option<real> {
    var i := DigitRun(s);
    if i < |s| && s[i] == '.' then
      WithPoint(s[..i], s[i + 1..])
    else if i == 0 then None
    else Exponential(NatOf(s[..i]) as real, s[i..])
  }

  /** The digits before the point and the text after it. */
  function WithPoint(digits: string, rest: string): Option<real>
    requires forall i :: 0 <= i < |digits| ==> IsDigit(digits[i])
  {
    var j := DigitRun(rest);
    if digits == "" && j == 0 then None
    else Exponential(NatOf(digits) as real + FractionOf(rest[..j]), rest[j..])
  }

  /** What may follow the mantissa: nothing, or an exponent. */
  function Exponential(mantissa: real, tail: string): Option<real> {
    if tail == "" then Some(mantissa)
    else if tail[0] == 'e' || tail[0] == 'E' then
      var e := Exponent(tail[1..]);
      if e.None? then None else Some(Scale(mantissa, e.value))
    else None
  }

  function RadixOf(c: char): nat {
    if Lower(c) == 'x' then 16 else if Lower(c) == 'o' then 8 else if Lower(c) == 'b' then 2 else 0
  }

  /** `Number(s)` for non-empty text without outer white space; `None` stands for NaN and infinities. */
  function ToNumber(s: string): Option<real> {
    if |s| >= 2 && s[0] == '0' && RadixOf(s[1]) != 0 then
      var r := RadixValue(s[2..], RadixOf(s[1]));
      if r.None? then None else Some(r.value as real)
    else if s != "" && (s[0] == '+' || s[0] == '-') then
      var r := Decimal(s[1..]);
      if r.None? then None else if s[0] == '-' then Some(-r.value) else r
    else Decimal(s)
  }

  /** Characters that can occur in text that `Number` accepts. */
  predicate NumberChar(c: char) {
    IsDigit(c) || c == '+' || c == '-' || c == '.' || 'a' <= Lower(c) <= 'f' || Lower(c) == 'x' || Lower(c) == 'o'
  }

  predicate NumberText(s: string) { forall i :: 0 <= i < |s| ==> NumberChar(s[i]) }

  lemma {:induction false} NumberTextConcat(a: string, b: string)
    requires NumberText(a) && NumberText(b)
    ensures NumberText(a + b)
  {
  }

  lemma {:induction false} RadixChars(s: string, base: int)
    requires base <= 16
    ensures RadixValue(s, base).Some? ==> NumberText(s)
  {
    if |s| > 1 {
      RadixChars(s[..|s| - 1], base);
      assert s == s[..|s| - 1] + [s[|s| - 1]];
    }
  }

  lemma {:induction false} ExponentialChars(mantissa: real, tail: string)
    ensures Exponential(mantissa, tail).Some? ==> NumberText(tail)
  {
    if Exponential(mantissa, tail).Some? && tail != "" {
      var e := tail[1..];
      assert tail == [tail[0]] + e;
      if e != "" && (e[0] == '+' || e[0] == '-') {
        assert e == [e[0]] + e[1..];
        assert NumberText(e[1..]);
        NumberTextConcat([e[0]], e[1..]);
      }
      NumberTextConcat([tail[0]], e);
    }
  }

  lemma {:induction false} DecimalChars(s: string)
    ensures Decimal(s).Some? ==> NumberText(s)
  {
    hide NatOf, FractionOf, Exponent;
    var i := DigitRun(s);
    if i < |s| && s[i] == '.' {
      PointChars(s[..i], s[i + 1..]);
      assert s == s[..i] + ("." + s[i + 1..]);
    } else {
      ExponentialChars(NatOf(s[..i]) as real, s[i..]);
      assert s == s[..i] + s[i..];
    }
  }

  lemma {:induction false} PointChars(digits: string, rest: string)
    requires forall i :: 0 <= i < |digits| ==> IsDigit(digits[i])
    ensures WithPoint(digits, rest).Some? ==> NumberText(digits + ("." + rest))
  {
    var j := DigitRun(rest);
    ExponentialChars(NatOf(digits) as real + FractionOf(rest[..j]), rest[j..]);
    if NumberText(rest[j..]) {
      NumberTextConcat(rest[..j], rest[j..]);
      assert rest == rest[..j] + rest[j..];
      NumberTextConcat(".", rest);
      NumberTextConcat(digits, "." + rest);
    }
  }

  lemma {:induction false} NumberChars(s: string)
    ensures ToNumber(s).Some? ==> NumberText(s)
  {
    hide NatOf, FractionOf, RadixValue, Decimal;
    if |s| >= 2 && s[0] == '0' && RadixOf(s[1]) != 0 {
      RadixChars(s[2..], RadixOf(s[1]));
      assert NumberText(s[..2]);
      assert s == s[..2] + s[2..];
    } else if s != "" && (s[0] == '+' || s[0] == '-') {
      DecimalChars(s[1..]);
      assert s == s[..1] + s[1..];
    } else {
      DecimalChars(s);
    }
  }

  // ---------------------------------------------------------------- fractions

  /** `^(\d+)\/(\d+)$` */
  function MatchFraction(s: string): Option<(nat, nat)> {
    var i := DigitRun(s);
    if i > 0 && i < |s| && s[i] == '/' && AllDigits(s[i + 1..]) then
      Some((NatOf(s[..i]), NatOf(s[i + 1..])))
    else None
  }

  /** `^(\d+)\s+(\d+)\/(\d+)$` */
  function MatchMixed(s: string): Option<(nat, nat, nat)> {
    var i := DigitRun(s);
    if i > 0 && i < |s| && IsSpace(s[i]) then
      var f := MatchFraction(TrimStart(s[i..]));
      if f.None? then None else Some((NatOf(s[..i]), f.value.0, f.value.1))
    else None
  }

  /** `replace(",", ".")` changes the first comma only. */
  function CommaToPoint(s: string): string {
    if s == "" then ""
    else if s[0] == ',' then "." + s[1..]
    else [s[0]] + CommaToPoint(s[1..])
  }

  function ParseStringNumber(value: string): Option<real> {
    var s := CommaToPoint(Trim(value));
    if s == "" then None
    else
      var mixed := MatchMixed(s);
      if mixed.Some? && mixed.value.2 != 0 then
        Some(mixed.value.0 as real + mixed.value.1 as real / mixed.value.2 as real)
      else
        var fraction := MatchFraction(s);
        if fraction.Some? && fraction.value.1 != 0 then
          Some(fraction.value.0 as real / fraction.value.1 as real)
        else ToNumber(s)
  }

  function ToFiniteNumber(value: Json): Option<real> {
    match value
    case Num(r) => Some(r)
    case Str(s) => ParseStringNumber(s)
    case _ => None
  }

  /** `Math.round`: to the nearest integer, halves upwards. */
  function Round(r: real): int { (r + 0.5).Floor }

  /** `n` is the integer nearest to `x`, the larger one when `x` lies halfway. */
  predicate Nearest(x: real, n: int) { n as real - 0.5 <= x < n as real + 0.5 }

  /** Rounding gives the nearest integer, and there is only one. */
  lemma {:induction false} RoundIsNearest(x: real, n: int)
    ensures Round(x) == n <==> Nearest(x, n)
  {
  }

  lemma {:induction false} RoundInteger(n: int)
    ensures Round(n as real) == n
  {
  }

  function ToNonNegativeInteger(value: Json): (n: Option<int>)
    ensures n.Some? ==> n.value >= 0
  {
    var parsed := ToFiniteNumber(value);
    if parsed.None? || parsed.value < 0.0 then None else Some(Round(parsed.value))
  }

  lemma {:induction false} CommaToPointKeeps(s: string)
    ensures |CommaToPoint(s)| == |s|
    ensures forall i :: 0 <= i < |s| ==> CommaToPoint(s)[i] == s[i] || (s[i] == ',' && CommaToPoint(s)[i] == '.')
    ensures ',' !in s ==> CommaToPoint(s) == s
  {
    if s != "" && s[0] != ',' {
      CommaToPointKeeps(s[1..]);
      assert s == [s[0]] + s[1..];
    }
  }

  lemma {:induction false} FractionChars(s: string)
    ensures MatchFraction(s).Some? ==> forall i :: 0 <= i < |s| ==> IsDigit(s[i]) || s[i] == '/'
  {
    var i := DigitRun(s);
    if MatchFraction(s).Some? {
      assert s == s[..i + 1] + s[i + 1..];
    }
  }

  // ---------------------------------------------------------------- what is read back

  lemma {:induction false} ParseWhole(digits: string)
    requires AllDigits(digits)
    ensures ParseStringNumber(digits) == Some(NatOf(digits) as real)
  {
    PlainText(digits);
    assert digits + "" == digits;
    DigitRunIs(digits, "");
    assert ToNumber(digits) == Decimal(digits);
  }

  /** Text without white space at its ends and without commas goes to the patterns unchanged. */
  lemma {:induction false} PlainText(s: string)
    requires Trimmed(s) && forall i :: 0 <= i < |s| ==> s[i] != ','
    ensures CommaToPoint(Trim(s)) == s
  {
    TrimIsIdentity(s);
    CommaToPointKeeps(s);
  }

  lemma {:induction false} FractionMatches(n: string, d: string)
    requires AllDigits(n) && AllDigits(d)
    ensures MatchFraction(n + "/" + d) == Some((NatOf(n), NatOf(d)))
    ensures MatchMixed(n + "/" + d).None?
  {
    var s := n + "/" + d;
    assert s == n + ("/" + d);
    DigitRunIs(n, "/" + d);
    assert ("/" + d)[1..] == d;
  }

  lemma {:induction false} ParseFraction(n: string, d: string)
    requires AllDigits(n) && AllDigits(d) && NatOf(d) != 0
    ensures ParseStringNumber(n + "/" + d) == Some(NatOf(n) as real / NatOf(d) as real)
  {
    FractionMatches(n, d);
    PlainText(n + "/" + d);
  }

  lemma {:induction false} MixedMatches(w: string, gap: string, n: string, d: string)
    requires AllDigits(w) && gap != "" && AllSpace(gap) && AllDigits(n) && AllDigits(d)
    ensures MatchMixed(w + gap + (n + "/" + d)) == Some((NatOf(w), NatOf(n), NatOf(d)))
  {
    var f := n + "/" + d;
    FractionMatches(n, d);
    assert w + gap + f == w + (gap + f);
    assert !IsDigit((gap + f)[0]) && IsSpace((gap + f)[0]);
    DigitRunIs(w, gap + f);
    assert !IsSpace(f[0]);
    TrimStartSkips(gap, f);
  }

  lemma {:induction false} ParseMixed(w: string, gap: string, n: string, d: string)
    requires AllDigits(w) && gap != "" && AllSpace(gap) && AllDigits(n) && AllDigits(d) && NatOf(d) != 0
    ensures ParseStringNumber(w + gap + (n + "/" + d))
      == Some(NatOf(w) as real + NatOf(n) as real / NatOf(d) as real)
  {
    hide NatOf, ToNumber, MatchFraction;
    MixedMatches(w, gap, n, d);
    var f := n + "/" + d;
    var s := w + gap + f;
    assert s[0] == w[0] && s[|s| - 1] == d[|d| - 1];
    PlainText(s);
  }
}
