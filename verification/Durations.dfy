/** Texts of durations read as whole minutes. */
module Durations {
  // `normalizeMinutes`: numbers, ISO 8601 durations, "1 h 30 min" and "45 min" as whole minutes.
  import opened Text
  import opened Json
  import opened Numbers
  import opened NumberGrammar

  // ---------------------------------------------------------------- the three grammars
  // Each pattern of the source as a relation: the text can be cut into the parts the pattern names.

  /** `(?:(\d+)X)?` with its value, 0 when the part is absent. */
  ghost predicate IsoPart(s: string, letter: char, v: nat) {
    || (s == "" && v == 0)
    || (|s| >= 2 && AllDigits(s[..|s| - 1]) && Lower(s[|s| - 1]) == letter && v == NatOf(s[..|s| - 1]))
  }

  ghost predicate IsoTime(s: string, h: nat, m: nat) {
    (s == "" && h == 0 && m == 0) || exists b, c :: TimeParts(s, b, c, h, m)
  }

  ghost predicate TimeParts(s: string, b: string, c: string, h: nat, m: nat) {
    s != "" && Lower(s[0]) == 't' && s[1..] == b + c && IsoPart(b, 'h', h) && IsoPart(c, 'm', m)
  }

  /** `^P(?:(\d+)D)?(?:T(?:(\d+)H)?(?:(\d+)M)?)?$`, either case. */
  ghost predicate IsoDuration(s: string, d: nat, h: nat, m: nat) {
    s != "" && Lower(s[0]) == 'p' && exists a, t :: IsoParts(s[1..], a, t, d, h, m)
  }

  ghost predicate IsoParts(s: string, a: string, t: string, d: nat, h: nat, m: nat) {
    s == a + t && IsoPart(a, 'd', d) && IsoTime(t, h, m)
  }

  /** `\d+(?:[.,]\d+)?` */
  ghost predicate DecimalText(q: string) {
    AllDigits(q) || exists i :: PointAt(q, i)
  }

  ghost predicate PointAt(q: string, i: int) {
    0 < i < |q| && AllDigits(q[..i]) && (q[i] == '.' || q[i] == ',') && AllDigits(q[i + 1..])
  }

  /** A unit word: its first letter is fixed, any letters may follow. */
  ghost predicate UnitWord(s: string, letter: char) {
    s != "" && Lower(s[0]) == letter && forall i :: 1 <= i < |s| ==> IsLetter(s[i])
  }

  /** `(\d+(?:[.,]\d+)?)\s*X[a-z]*` */
  ghost predicate Amount(s: string, letter: char, q: string) {
    exists gap, word :: AmountParts(s, letter, q, gap, word)
  }

  ghost predicate AmountParts(s: string, letter: char, q: string, gap: string, word: string) {
    s == q + gap + word && DecimalText(q) && AllSpace(gap) && UnitWord(word, letter)
  }

  /** `^(?:(\d+(?:[.,]\d+)?)\s*h(?:[a-z]*)?)\s*(?:(\d+(?:[.,]\d+)?)\s*m(?:[a-z]*)?)?$` */
  ghost predicate HourForm(s: string, h: string, m: Option<string>) {
    exists a, gap, b :: HourParts(s, h, m, a, gap, b)
  }

  ghost predicate HourParts(s: string, h: string, m: Option<string>, a: string, gap: string, b: string) {
    && s == a + gap + b && Amount(a, 'h', h) && AllSpace(gap)
    && (if m.None? then b == "" else Amount(b, 'm', m.value))
  }

  /** `^(\d+(?:[.,]\d+)?)\s*m(?:[a-z]*)?$` */
  ghost predicate MinuteForm(s: string, m: string) { Amount(s, 'm', m) }

  // ---------------------------------------------------------------- the matchers

  predicate TakesComponent(s: string, letter: char) {
    var n := DigitRun(s);
    0 < n < |s| && Lower(s[n]) == letter
  }

  /** Reads `(?:(\d+)X)?` and returns its value and the rest of the text. */
  function Component(s: string, letter: char): (nat, string) {
    var n := DigitRun(s);
    if TakesComponent(s, letter) then (NatOf(s[..n]), s[n + 1..]) else (0, s)
  }

  function MatchIso(s: string): Option<(nat, nat, nat)> {
    if s == "" || Lower(s[0]) != 'p' then None
    else
      var (d, r) := Component(s[1..], 'd');
      var time := MatchTime(r);
      if time.None? then None else Some((d, time.value.0, time.value.1))
  }

  function MatchTime(s: string): Option<(nat, nat)> {
    if s == "" then Some((0, 0))
    else if Lower(s[0]) != 't' then None
    else
      var (h, r) := Component(s[1..], 'h');
      var (m, rest) := Component(r, 'm');
      if rest == "" then Some((h, m)) else None
  }

  function DecimalRun(s: string): (n: nat)
    ensures n <= |s|
  {
    var i := DigitRun(s);
    if 0 < i < |s| && (s[i] == '.' || s[i] == ',') && DigitRun(s[i + 1..]) > 0 then
      i + 1 + DigitRun(s[i + 1..])
    else i
  }

  function LetterRun(s: string): (n: nat)
    ensures n <= |s|
    ensures forall i :: 0 <= i < n ==> IsLetter(s[i])
    ensures n < |s| ==> !IsLetter(s[n])
  {
    if s == "" || !IsLetter(s[0]) then 0 else 1 + LetterRun(s[1..])
  }

  /** Reads an amount with its unit word and returns the number text and the rest. */
  function MatchAmount(s: string, letter: char): Option<(string, string)> {
    var n := DecimalRun(s);
    var r := TrimStart(s[n..]);
    if n == 0 || r == "" || Lower(r[0]) != letter then None
    else Some((s[..n], r[1..][LetterRun(r[1..])..]))
  }

  function MatchHour(s: string): Option<(string, Option<string>)> {
    var a := MatchAmount(s, 'h');
    if a.None? then None
    else
      var rest := TrimStart(a.value.1);
      if rest == "" then Some((a.value.0, None))
      else
        var b := MatchAmount(rest, 'm');
        if b.Some? && b.value.1 == "" then Some((a.value.0, Some(b.value.0))) else None
  }

  function MatchMinute(s: string): Option<string> {
    var a := MatchAmount(s, 'm');
    if a.Some? && a.value.1 == "" then Some(a.value.0) else None
  }

  function NumberOr0(s: string): real {
    var n := ParseStringNumber(s);
    if n.Some? then n.value else 0.0
  }

  function HourValue(h: string, m: Option<string>): int {
    Round(NumberOr0(h) * 60.0 + (if m.Some? then NumberOr0(m.value) else 0.0))
  }

  function MinuteValue(m: string): Option<int> {
    var parsed := ParseStringNumber(m);
    if parsed.None? then None else Some(Round(parsed.value))
  }

  /** The patterns, tried in order on trimmed text. */
  function PatternMinutes(s: string): Option<int> {
    if MatchIso(s).Some? then
      Some(MatchIso(s).value.0 * 24 * 60 + MatchIso(s).value.1 * 60 + MatchIso(s).value.2)
    else if MatchHour(s).Some? then Some(HourValue(MatchHour(s).value.0, MatchHour(s).value.1))
    else if MatchMinute(s).Some? then MinuteValue(MatchMinute(s).value)
    else None
  }

  function NormalizeMinutes(value: Json): Option<int> {
    var direct := ToNonNegativeInteger(value);
    if direct.Some? then direct
    else if !value.Str? then None
    else if Trim(value.text) == "" then None
    else PatternMinutes(Trim(value.text))
  }

  // ---------------------------------------------------------------- matcher = grammar, ISO form

  lemma {:induction false} ComponentSound(s: string, letter: char) returns (a: string)
    ensures s == a + Component(s, letter).1
    ensures IsoPart(a, letter, Component(s, letter).0)
  {
    var n := DigitRun(s);
    a := if TakesComponent(s, letter) then s[..n + 1] else "";
    assert TakesComponent(s, letter) ==> a[..n] == s[..n];
  }

  lemma {:induction false} ComponentComplete(a: string, tail: string, letter: char, v: nat)
    requires IsoPart(a, letter, v) && 'a' <= letter <= 'z'
    requires a == "" ==> !TakesComponent(tail, letter)
    ensures Component(a + tail, letter) == (v, tail)
  {
    if a == "" {
      assert a + tail == tail;
    } else {
      var digits, mark := a[..|a| - 1], [a[|a| - 1]];
      assert a + tail == digits + (mark + tail);
      DigitRunIs(digits, mark + tail);
      assert (a + tail)[|digits| + 1..] == tail;
    }
  }

  lemma {:induction false} IsoPartTakes(s: string, letter: char, v: nat, other: char)
    requires IsoPart(s, letter, v) && letter != other && 'a' <= letter <= 'z'
    ensures !TakesComponent(s, other)
  {
    if s != "" {
      var digits := s[..|s| - 1];
      assert s == digits + [s[|s| - 1]];
      DigitRunIs(digits, [s[|s| - 1]]);
    }
  }

  lemma {:induction false} TimeMatchesGrammar(s: string, h: nat, m: nat)
    ensures MatchTime(s) == Some((h, m)) <==> IsoTime(s, h, m)
  {
    hide MatchTime;
    if MatchTime(s) == Some((h, m)) { TimeSound(s, h, m); }
    if IsoTime(s, h, m) { TimeComplete(s, h, m); }
  }

  lemma {:induction false} TimeSound(s: string, h: nat, m: nat)
    requires MatchTime(s) == Some((h, m))
    ensures IsoTime(s, h, m)
  {
    hide IsoPart, Component;
    if s != "" {
      var b := ComponentSound(s[1..], 'h');
      var r := Component(s[1..], 'h').1;
      var c := ComponentSound(r, 'm');
      assert r == c;
      assert TimeParts(s, b, c, h, m);
    }
  }

  lemma {:induction false} TimeComplete(s: string, h: nat, m: nat)
    requires IsoTime(s, h, m)
    ensures MatchTime(s) == Some((h, m))
  {
    hide IsoPart, Component;
    if s != "" {
      var b, c :| TimeParts(s, b, c, h, m);
      if b == "" { IsoPartTakes(c, 'm', m, 'h'); }
      ComponentComplete(b, c, 'h', h);
      ComponentComplete(c, "", 'm', m);
      assert c + "" == c;
    }
  }

  lemma {:induction false} IsoSound(s: string, d: nat, h: nat, m: nat)
    requires MatchIso(s) == Some((d, h, m))
    ensures IsoDuration(s, d, h, m)
  {
    hide IsoPart, Component, IsoTime, MatchTime;
    var a := ComponentSound(s[1..], 'd');
    var t := Component(s[1..], 'd').1;
    TimeMatchesGrammar(t, h, m);
    assert IsoParts(s[1..], a, t, d, h, m);
  }

  lemma {:induction false} IsoComplete(s: string, d: nat, h: nat, m: nat)
    requires IsoDuration(s, d, h, m)
    ensures MatchIso(s) == Some((d, h, m))
  {
    hide IsoPart, Component, IsoTime, MatchTime;
    var a, t :| IsoParts(s[1..], a, t, d, h, m);
    TimeMatchesGrammar(t, h, m);
    TimeTakesNothing(t, h, m);
    ComponentComplete(a, t, 'd', d);
  }

  lemma {:induction false} TimeTakesNothing(t: string, h: nat, m: nat)
    requires IsoTime(t, h, m)
    ensures !TakesComponent(t, 'd')
  {
    if t != "" {
      assert Lower(t[0]) == 't';
      assert DigitRun(t) == 0;
    }
  }

  /** The ISO pattern matches exactly the texts of its grammar, with these captures. */
  lemma {:induction false} IsoMatchesGrammar(s: string, d: nat, h: nat, m: nat)
    ensures MatchIso(s) == Some((d, h, m)) <==> IsoDuration(s, d, h, m)
  {
    hide MatchIso, IsoDuration;
    if MatchIso(s) == Some((d, h, m)) { IsoSound(s, d, h, m); }
    if IsoDuration(s, d, h, m) { IsoComplete(s, d, h, m); }
  }

  // ---------------------------------------------------------------- matcher = grammar, word forms

  lemma {:induction false} DecimalRunIs(q: string, tail: string)
    requires DecimalText(q)
    requires tail != "" ==> !IsDigit(tail[0]) && tail[0] != '.' && tail[0] != ','
    ensures DecimalRun(q + tail) == |q|
  {
    hide NatOf, DigitRun;
    var s := q + tail;
    if AllDigits(q) {
      DigitRunIs(q, tail);
      assert tail != "" ==> s[|q|] == tail[0];
    } else {
      var i :| PointAt(q, i);
      assert s == q[..i] + ([q[i]] + (q[i + 1..] + tail));
      DigitRunIs(q[..i], [q[i]] + (q[i + 1..] + tail));
      assert s[i + 1..] == q[i + 1..] + tail;
      DigitRunIs(q[i + 1..], tail);
    }
  }

  lemma {:induction false} DecimalRunSound(s: string)
    requires DecimalRun(s) > 0
    ensures DecimalText(s[..DecimalRun(s)])
  {
    var n, i := DecimalRun(s), DigitRun(s);
    var q := s[..n];
    assert q[..i] == s[..i];
    if n > i {
      assert q[i + 1..] == s[i + 1..][..n - i - 1];
      assert q[i] == s[i];
      assert PointAt(q, i);
    }
  }

  lemma {:induction false} LetterRunIs(letters: string, tail: string)
    requires forall i :: 0 <= i < |letters| ==> IsLetter(letters[i])
    requires tail != "" ==> !IsLetter(tail[0])
    ensures LetterRun(letters + tail) == |letters|
  {
    var s := letters + tail;
    assert forall i :: 0 <= i < |letters| ==> s[i] == letters[i];
    assert tail != "" ==> s[|letters|] == tail[0];
  }

  /** `MatchAmount` cuts an amount off the start of the text. */
  lemma {:induction false} AmountSound(s: string, letter: char) returns (a: string)
    requires MatchAmount(s, letter).Some?
    ensures s == a + MatchAmount(s, letter).value.1
    ensures Amount(a, letter, MatchAmount(s, letter).value.0)
  {
    hide NatOf, DecimalRun, LetterRun, TrimStart, DecimalText, IsSpace, IsDigit, UnitWord, AllSpace;
    var n := DecimalRun(s);
    DecimalRunSound(s);
    var q := s[..n];
    var gap, r := SplitStart(s[n..]);
    var word, rest := SplitWord(r, letter);
    a := q + gap + word;
    assert AmountParts(a, letter, q, gap, word);
    assert s == q + (gap + (word + rest));
  }

  lemma {:induction false} SplitWord(r: string, letter: char) returns (word: string, rest: string)
    requires r != "" && Lower(r[0]) == letter
    ensures r == word + rest && UnitWord(word, letter)
    ensures rest == r[1..][LetterRun(r[1..])..]
  {
    var l := LetterRun(r[1..]);
    word, rest := [r[0]] + r[1..][..l], r[1..][l..];
  }

  lemma {:induction false} AmountComplete(a: string, tail: string, letter: char, q: string)
    requires Amount(a, letter, q) && 'a' <= letter <= 'z'
    requires tail != "" ==> !IsLetter(tail[0])
    ensures MatchAmount(a + tail, letter) == Some((q, tail))
  {
    var gap, word :| AmountParts(a, letter, q, gap, word);
    var r := word + tail;
    var t := gap + r;
    assert a + tail == q + t;
    assert t[0] == if gap == "" then word[0] else gap[0];
    DecimalRunIs(q, t);
    assert (q + t)[|q|..] == t && (q + t)[..|q|] == q;
    LetterIsNotSpace(word[0]);
    TrimStartSkips(gap, r);
    assert r[1..] == word[1..] + tail;
    LetterRunIs(word[1..], tail);
  }

  lemma {:induction false} LetterIsNotSpace(c: char)
    requires IsLetter(c)
    ensures !IsSpace(c) && !IsDigit(c) && c != '.' && c != ','
  {
  }

  /** The minute pattern matches exactly the texts of its grammar. */
  lemma {:induction false} MinuteMatchesGrammar(s: string, m: string)
    ensures MatchMinute(s) == Some(m) <==> MinuteForm(s, m)
  {
    if MatchMinute(s) == Some(m) {
      var a := AmountSound(s, 'm');
      assert s == a;
    }
    if MinuteForm(s, m) {
      AmountComplete(s, "", 'm', m);
      assert s + "" == s;
    }
  }

  /** The hour pattern matches exactly the texts of its grammar. */
  lemma {:induction false} HourMatchesGrammar(s: string, h: string, m: Option<string>)
    requires CleanText(s)
    ensures MatchHour(s) == Some((h, m)) <==> HourForm(s, h, m)
  {
    if MatchHour(s) == Some((h, m)) {
      HourSound(s, h, m);
    }
    if HourForm(s, h, m) {
      HourComplete(s, h, m);
    }
  }

  lemma {:induction false} HourSound(s: string, h: string, m: Option<string>)
    requires MatchHour(s) == Some((h, m))
    ensures HourForm(s, h, m)
  {
    hide MatchAmount, TrimStart, Amount, IsSpace;
    var a := AmountSound(s, 'h');
    var t := MatchAmount(s, 'h').value.1;
    var gap, rest := SplitStart(t);
    if rest != "" {
      MinuteMatchesGrammar(rest, m.value);
    }
    assert s == a + gap + rest;
    assert HourParts(s, h, m, a, gap, rest);
  }

  lemma {:induction false} HourComplete(s: string, h: string, m: Option<string>)
    requires CleanText(s) && HourForm(s, h, m)
    ensures MatchHour(s) == Some((h, m))
  {
    hide NatOf, DecimalText, MatchAmount, Amount;
    var a, gap, b :| HourParts(s, h, m, a, gap, b);
    if m.None? {
      AmountComplete(a, "", 'h', h);
      assert a + "" == s;
    } else {
      AmountStartsWithDigit(b, 'm', m.value);
      TrimStartSkips(gap, b);
      MinuteMatchesGrammar(b, m.value);
      assert s == a + (gap + b);
      AmountComplete(a, gap + b, 'h', h);
    }
  }

  lemma {:induction false} AmountStartsWithDigit(s: string, letter: char, q: string)
    requires Amount(s, letter, q)
    ensures s != "" && q != "" && IsDigit(s[0]) && IsDigit(q[0])
  {
    if !AllDigits(q) {
      var i :| PointAt(q, i);
      assert q[..i][0] == q[0];
    }
  }

  // ---------------------------------------------------------------- what the numbers mean

  /** The decimal text `q` denotes the number `r`; a comma counts as the point. */
  ghost predicate Denotes(q: string, r: real) {
    || (AllDigits(q) && r == NatOf(q) as real)
    || exists i :: PointAt(q, i) && r == PointValue(q, i)
  }

  ghost function PointValue(q: string, i: int): real
    requires PointAt(q, i)
  {
    NatOf(q[..i]) as real + FractionOf(q[i + 1..])
  }

  lemma {:induction false} FirstCommaToPoint(a: string, b: string)
    requires forall i :: 0 <= i < |a| ==> a[i] != ','
    ensures CommaToPoint(a + "," + b) == a + "." + b
  {
    var s := a + "," + b;
    if a != "" {
      assert s[1..] == a[1..] + "," + b;
      FirstCommaToPoint(a[1..], b);
    } else {
      assert s[1..] == b;
    }
  }

  lemma {:induction false} ParseDecimal(q: string, r: real)
    requires Denotes(q, r)
    ensures ParseStringNumber(q) == Some(r) && r >= 0.0
  {
    hide NatOf, FractionOf, ParseStringNumber;
    if AllDigits(q) && r == NatOf(q) as real {
      ParseWhole(q);
    } else {
      var i :| PointAt(q, i) && r == PointValue(q, i);
      var a, b := q[..i], q[i + 1..];
      assert q == a + [q[i]] + b;
      ParsePoint(a, [q[i]], b);
    }
  }

  lemma {:induction false} ParsePoint(a: string, point: string, b: string)
    requires AllDigits(a) && AllDigits(b) && (point == "." || point == ",")
    ensures ParseStringNumber(a + point + b) == Some(NatOf(a) as real + FractionOf(b))
  {
    var q := a + point + b;
    assert q[0] == a[0] && q[|q| - 1] == b[|b| - 1];
    if point == "." {
      PlainText(q);
    } else {
      TrimIsIdentity(q);
      FirstCommaToPoint(a, b);
    }
    assert CommaToPoint(Trim(q)) == a + "." + b;
    PointParses(a, b);
  }

  lemma {:induction false} PointParses(a: string, b: string)
    requires AllDigits(a) && AllDigits(b)
    ensures MatchMixed(a + "." + b).None? && MatchFraction(a + "." + b).None?
    ensures ToNumber(a + "." + b) == Some(NatOf(a) as real + FractionOf(b))
  {
    hide NatOf, FractionOf;
    var s := a + "." + b;
    assert s == a + ("." + b);
    DigitRunIs(a, "." + b);
    assert b + "" == b;
    DigitRunIs(b, "");
    assert s[|a| + 1..] == b;
    assert s[1] == if |a| > 1 then a[1] else '.';
    assert b[..|b|] == b;
  }

  predicate PatternLetter(c: char) { Lower(c) == 'p' || Lower(c) == 'h' || Lower(c) == 'm' }

  lemma {:induction false} NotNumeric(t: string, i: nat)
    requires i < |t| && PatternLetter(t[i])
    ensures MatchMixed(t).None? && MatchFraction(t).None? && ToNumber(t).None?
  {
    hide NatOf, FractionOf, ToNumber, TrimStart, DigitRun;
    NumberChars(t);
    FractionChars(t);
    var n := DigitRun(t);
    if n < |t| {
      var gap, r := SplitStart(t[n..]);
      FractionChars(r);
      assert t == t[..n] + (gap + r);
    }
  }

  /** Text with one of the letters of the duration patterns is not a number. */
  lemma {:induction false} NotANumber(s: string, i: nat)
    requires CleanText(s) && i < |s| && PatternLetter(s[i])
    ensures ToNonNegativeInteger(Str(s)).None? && ParseStringNumber(s).None?
  {
    TrimIsIdentity(s);
    CommaToPointKeeps(s);
    NotNumeric(CommaToPoint(s), i);
    hide Trim, TrimStart, TrimEnd, MatchMixed, MatchFraction, ToNumber, CommaToPoint;
  }

  lemma {:induction false} AmountHasUnit(s: string, letter: char, q: string) returns (i: nat)
    requires Amount(s, letter, q)
    ensures i < |s| && Lower(s[i]) == letter
  {
    var gap, word :| AmountParts(s, letter, q, gap, word);
    i := |q + gap|;
    assert s[i] == word[0];
  }

  lemma {:induction false} HourHasUnit(s: string, h: string, m: Option<string>) returns (i: nat)
    requires HourForm(s, h, m)
    ensures i < |s| && Lower(s[i]) == 'h'
  {
    var a, gap, b :| HourParts(s, h, m, a, gap, b);
    i := AmountHasUnit(a, 'h', h);
    assert s[i] == a[i];
  }

  // ---------------------------------------------------------------- main results

  /** No text belongs to two of the grammars, and none of their texts is a number. */
  lemma {:induction false} GrammarsDisjoint(s: string, d: nat, h: nat, m: nat,
      a: string, b: Option<string>, c: string)
    requires CleanText(s)
    ensures !(IsoDuration(s, d, h, m) && HourForm(s, a, b))
    ensures !(IsoDuration(s, d, h, m) && MinuteForm(s, c))
    ensures !(HourForm(s, a, b) && MinuteForm(s, c))
    ensures IsoDuration(s, d, h, m) || HourForm(s, a, b) || MinuteForm(s, c)
      ==> ParseStringNumber(s).None? && ToNonNegativeInteger(Str(s)).None?
  {
    hide NatOf, FractionOf, DecimalText, Amount, HourForm, ParseStringNumber, ToNonNegativeInteger;
    if HourForm(s, a, b) {
      HourMatchesGrammar(s, a, b);
      var i := HourHasUnit(s, a, b);
      NotANumber(s, i);
    }
    if MinuteForm(s, c) {
      MinuteMatchesGrammar(s, c);
      var i := AmountHasUnit(s, 'm', c);
      NotANumber(s, i);
    }
    if IsoDuration(s, d, h, m) {
      NotANumber(s, 0);
    }
  }

  /** An ISO duration is worth its days, hours and minutes. */
  lemma {:induction false} IsoMinutes(s: string, d: nat, h: nat, m: nat)
    requires CleanText(s) && IsoDuration(s, d, h, m)
    ensures NormalizeMinutes(Str(s)) == Some(1440 * d + 60 * h + m)
  {
    hide NatOf, FractionOf, MatchHour, MatchMinute, IsoParts, MatchIso, ToNonNegativeInteger, NormalizeMinutes;
    assert MatchIso(s) == Some((d, h, m)) by { IsoMatchesGrammar(s, d, h, m); }
    NotANumber(s, 0);
    FallsThrough(s);
  }

  lemma {:induction false} FallsThrough(s: string)
    requires CleanText(s) && ToNonNegativeInteger(Str(s)).None?
    ensures NormalizeMinutes(Str(s)) == PatternMinutes(s)
  {
    TrimIsIdentity(s);
  }

  /** Hours and optional minutes are added up and rounded once. */
  lemma {:induction false} HourMinutes(s: string, h: string, m: Option<string>, x: real, y: real)
    requires CleanText(s) && HourForm(s, h, m) && Denotes(h, x)
    requires if m.None? then y == 0.0 else Denotes(m.value, y)
    ensures NormalizeMinutes(Str(s)).Some?
    ensures var n := NormalizeMinutes(Str(s)).value; Nearest(x * 60.0 + y, n) && n >= 0
  {
    RoundIsNearest(x * 60.0 + y, Round(x * 60.0 + y));
    hide NatOf, FractionOf, ParseStringNumber, MatchMinute, MatchHour, Denotes;
    GrammarsDisjoint(s, 0, 0, 0, h, m, "");
    HourMatchesGrammar(s, h, m);
    var i := HourHasUnit(s, h, m);
    var a, gap, b :| HourParts(s, h, m, a, gap, b);
    AmountStartsWithDigit(a, 'h', h);
    assert s[0] == a[0];
    TrimIsIdentity(s);
    ParseDecimal(h, x);
    if m.Some? { ParseDecimal(m.value, y); }
  }

  lemma {:induction false} MinuteMinutes(s: string, m: string, y: real)
    requires CleanText(s) && MinuteForm(s, m) && Denotes(m, y)
    ensures NormalizeMinutes(Str(s)).Some?
    ensures var n := NormalizeMinutes(Str(s)).value; Nearest(y, n) && n >= 0
  {
    RoundIsNearest(y, Round(y));
    hide NatOf, FractionOf, DecimalText, Amount, ParseStringNumber, MatchHour;
    GrammarsDisjoint(s, 0, 0, 0, "", None, m);
    MinuteMatchesGrammar(s, m);
    AmountStartsWithDigit(s, 'm', m);
    if MatchHour(s).Some? {
      HourMatchesGrammar(s, MatchHour(s).value.0, MatchHour(s).value.1);
      GrammarsDisjoint(s, 0, 0, 0, MatchHour(s).value.0, MatchHour(s).value.1, m);
    }
    TrimIsIdentity(s);
    ParseDecimal(m, y);
  }

  /** Every result is a whole number of minutes, never negative. */
  lemma {:induction false} MinutesNonNegative(value: Json)
    ensures NormalizeMinutes(value).Some? ==> NormalizeMinutes(value).value >= 0
  {
    if ToNonNegativeInteger(value).None? && value.Str? && Trim(value.text) != "" {
      var s := Trim(value.text);
      TrimShape(value.text);
      if MatchIso(s).Some? {
      } else if MatchHour(s).Some? {
        var (h, m) := MatchHour(s).value;
        HourSound(s, h, m);
        var a, gap, b :| HourParts(s, h, m, a, gap, b);
        AmountIsANumber(a, 'h', h);
        if m.Some? { AmountIsANumber(b, 'm', m.value); }
      } else if MatchMinute(s).Some? {
        MinuteMatchesGrammar(s, MatchMinute(s).value);
        AmountIsANumber(s, 'm', MatchMinute(s).value);
      }
    }
  }

  lemma {:induction false} AmountIsANumber(s: string, letter: char, q: string)
    requires Amount(s, letter, q)
    ensures ParseStringNumber(q).Some? && ParseStringNumber(q).value >= 0.0
  {
    if AllDigits(q) {
      ParseDecimal(q, NatOf(q) as real);
    } else {
      var i :| PointAt(q, i);
      ParseDecimal(q, PointValue(q, i));
    }
  }

  lemma {:induction false} PartText(digits: string, letter: char)
    requires AllDigits(digits)
    ensures IsoPart(digits + [letter], Lower(letter), NatOf(digits))
  {
    assert (digits + [letter])[..|digits|] == digits;
  }

  lemma {:induction false} IsoText(a: string, b: string, c: string)
    requires AllDigits(a) && AllDigits(b) && AllDigits(c)
    ensures IsoDuration("P" + ((a + "D") + ("T" + ((b + "H") + (c + "M")))), NatOf(a), NatOf(b), NatOf(c))
  {
    hide NatOf, IsoPart;
    var day, time := a + "D", "T" + ((b + "H") + (c + "M"));
    PartText(a, 'D'); PartText(b, 'H'); PartText(c, 'M');
    assert time[1..] == (b + "H") + (c + "M");
    assert TimeParts(time, b + "H", c + "M", NatOf(b), NatOf(c));
    assert ("P" + (day + time))[1..] == day + time;
    assert IsoParts(day + time, day, time, NatOf(a), NatOf(b), NatOf(c));
  }

  /** Printing days, hours and minutes in ISO form and parsing the text gives the minutes back. */
  lemma {:induction false} IsoRoundTrip(d: nat, h: nat, m: nat)
    ensures NormalizeMinutes(Str("P" + PrintNat(d) + "DT" + PrintNat(h) + "H" + PrintNat(m) + "M"))
      == Some(1440 * d + 60 * h + m)
  {
    hide NatOf, PrintNat, NormalizeMinutes, IsoDuration;
    var a, b, c := PrintNat(d), PrintNat(h), PrintNat(m);
    NatRoundTrip(d); NatRoundTrip(h); NatRoundTrip(m);
    var s := "P" + ((a + "D") + ("T" + ((b + "H") + (c + "M"))));
    assert s == "P" + a + "DT" + b + "H" + c + "M";
    IsoText(a, b, c);
    assert s[0] == 'P' && s[|s| - 1] == 'M';
    IsoMinutes(s, d, h, m);
  }

  /** "2h30m" is worth what it says, and so is "45m". */
  lemma {:induction false} WordRoundTrip(h: nat, m: nat)
    ensures NormalizeMinutes(Str(PrintNat(h) + "h" + PrintNat(m) + "m")) == Some(60 * h + m)
    ensures NormalizeMinutes(Str(PrintNat(m) + "m")) == Some(m)
  {
    hide NatOf, PrintNat, NormalizeMinutes;
    var a, b := PrintNat(h) + "h", PrintNat(m) + "m";
    var s := PrintNat(h) + "h" + PrintNat(m) + "m";
    NatRoundTrip(h); NatRoundTrip(m);
    assert a == PrintNat(h) + "" + "h" && b == PrintNat(m) + "" + "m";
    assert AmountParts(a, 'h', PrintNat(h), "", "h");
    assert AmountParts(b, 'm', PrintNat(m), "", "m");
    assert s == a + "" + b;
    assert HourParts(s, PrintNat(h), Some(PrintNat(m)), a, "", b);
    assert s[0] == PrintNat(h)[0] && s[|s| - 1] == 'm';
    HourMinutes(s, PrintNat(h), Some(PrintNat(m)), h as real, m as real);
    assert b[0] == PrintNat(m)[0] && b[|b| - 1] == 'm';
    MinuteMinutes(b, PrintNat(m), m as real);
  }

  // ---------------------------------------------------------------- the whole function

  /** A trimmed text of one of the three grammars, and the minutes it is worth. */
  ghost predicate TextMinutes(t: string, n: int) {
    || (exists d, h, m :: IsoWorth(t, d, h, m, n))
    || (exists h, m, x, y :: HourWorth(t, h, m, x, y, n))
    || (exists m, y :: MinuteWorth(t, m, y, n))
  }

  ghost predicate IsoWorth(t: string, d: nat, h: nat, m: nat, n: int) {
    IsoDuration(t, d, h, m) && n == 1440 * d + 60 * h + m
  }

  ghost predicate HourWorth(t: string, h: string, m: Option<string>, x: real, y: real, n: int) {
    && HourForm(t, h, m) && Denotes(h, x) && (if m.None? then y == 0.0 else Denotes(m.value, y))
    && Nearest(x * 60.0 + y, n)
  }

  ghost predicate MinuteWorth(t: string, m: string, y: real, n: int) {
    MinuteForm(t, m) && Denotes(m, y) && Nearest(y, n)
  }

  ghost predicate MinutesOf(value: Json, n: int) {
    RoundedFrom0(value, n) || exists t :: TextOf(value, t) && TextMinutes(t, n)
  }

  lemma {:induction false} AmountDenotes(s: string, letter: char, q: string) returns (r: real)
    requires Amount(s, letter, q)
    ensures Denotes(q, r)
  {
    hide NatOf, FractionOf;
    if AllDigits(q) {
      r := NatOf(q) as real;
    } else {
      var i :| PointAt(q, i);
      r := PointValue(q, i);
    }
  }

  lemma {:induction false} WorthIsRead(t: string, n: int)
    requires CleanText(t) && TextMinutes(t, n)
    ensures NormalizeMinutes(Str(t)) == Some(n)
  {
    hide NormalizeMinutes, IsoDuration, HourForm, MinuteForm, Denotes, Nearest;
    if d, h, m :| IsoWorth(t, d, h, m, n) {
      IsoMinutes(t, d, h, m);
    } else if h, m, x, y :| HourWorth(t, h, m, x, y, n) {
      HourMinutes(t, h, m, x, y);
      OnlyOneIsNearest(x * 60.0 + y, n, NormalizeMinutes(Str(t)).value);
    } else {
      var m, y :| MinuteWorth(t, m, y, n);
      MinuteMinutes(t, m, y);
      OnlyOneIsNearest(y, n, NormalizeMinutes(Str(t)).value);
    }
  }

  lemma {:induction false} OnlyOneIsNearest(x: real, n: int, n': int)
    requires Nearest(x, n) && Nearest(x, n')
    ensures n == n'
  {
  }

  lemma {:induction false} PatternIsWorth(t: string, n: int)
    requires CleanText(t) && PatternMinutes(t) == Some(n)
    ensures TextMinutes(t, n)
  {
    hide MatchIso, MatchHour, MatchMinute, HourValue, MinuteValue, IsoDuration, HourForm, MinuteForm, Denotes, Nearest;
    if MatchIso(t).Some? {
      var (d, h, m) := MatchIso(t).value;
      IsoMatchesGrammar(t, d, h, m);
      assert IsoWorth(t, d, h, m, n);
    } else if MatchHour(t).Some? {
      var (h, m) := MatchHour(t).value;
      HourIsWorth(t, h, m, n);
    } else {
      var m := MatchMinute(t).value;
      MinuteMatchesGrammar(t, m);
      MinuteIsWorth(t, m, n);
    }
  }

  lemma {:induction false} HourIsWorth(t: string, h: string, m: Option<string>, n: int)
    requires CleanText(t) && MatchHour(t) == Some((h, m)) && n == HourValue(h, m)
    ensures TextMinutes(t, n)
  {
    hide MatchHour, Amount, Denotes, ParseStringNumber, TextMinutes;
    HourMatchesGrammar(t, h, m);
    var a, gap, b :| HourParts(t, h, m, a, gap, b);
    var x := AmountDenotes(a, 'h', h);
    var y := 0.0;
    ParseDecimal(h, x);
    if m.Some? {
      y := AmountDenotes(b, 'm', m.value);
      ParseDecimal(m.value, y);
    }
    RoundIsNearest(x * 60.0 + y, n);
    assert HourWorth(t, h, m, x, y, n);
    OneWorth(t, n);
  }

  lemma {:induction false} OneWorth(t: string, n: int)
    ensures (exists h, m, x, y :: HourWorth(t, h, m, x, y, n)) ==> TextMinutes(t, n)
  {
    hide HourWorth;
  }

  lemma {:induction false} MinuteIsWorth(t: string, m: string, n: int)
    requires MinuteForm(t, m) && MinuteValue(m) == Some(n)
    ensures TextMinutes(t, n)
  {
    hide Amount, Denotes, ParseStringNumber;
    var y := AmountDenotes(t, 'm', m);
    ParseDecimal(m, y);
    RoundIsNearest(y, n);
    assert MinuteWorth(t, m, y, n);
  }

  lemma {:induction false} OuterSpaceIsIgnored(value: Json)
    requires value.Str? && Trim(value.text) != ""
    ensures CleanText(Trim(value.text)) && NormalizeMinutes(value) == NormalizeMinutes(Str(Trim(value.text)))
  {
    TrimShape(value.text);
    TrimIsIdentity(Trim(value.text));
    hide Trim, PatternMinutes, CommaToPoint, MatchMixed, MatchFraction, ToNumber;
  }

  /**
   * Every value, and every number of minutes: a value is read as `n` minutes exactly when it holds a
   * number from zero up that rounds to `n`, or text of one of the three grammars that is worth `n`.
   */
  lemma {:induction false} MinutesExactly(value: Json, n: int)
    ensures NormalizeMinutes(value) == Some(n) <==> MinutesOf(value, n)
  {
    hide PatternMinutes, ToNonNegativeInteger, RoundedFrom0, TextMinutes, TextOf, Trim;
    NonNegativeIntegerMatches(value, n);
    if value.Str? && Trim(value.text) != "" {
      var t := Trim(value.text);
      OuterSpaceIsIgnored(value);
      NonEmptyStringMatches(value, t);
      if NormalizeMinutes(value) == Some(n) && ToNonNegativeInteger(value).None? { PatternIsWorth(t, n); }
    }
    if t :| TextOf(value, t) && TextMinutes(t, n) {
      NonEmptyStringMatches(value, t);
      assert CleanText(t) by { hide *; TextIsClean(value, t); }
      WorthIsRead(t, n);
    }
  }

  lemma {:induction false} TextIsClean(value: Json, t: string)
    requires TextOf(value, t)
    ensures CleanText(t)
  {
  }
}
