/** Reading an ingredient line, part by part. */
module IngredientLines {
  // `parseIngredientLine`: a leading quantity, a known unit, and the rest of the line as the name.
  import opened Text
  import opened Json
  import opened Numbers
  import opened NumberGrammar

  datatype IngredientLine = IngredientLine(
    name: string, quantity: Option<real>, unit: Option<string>, order: nat, raw: string)

  /** Unit spellings and their canonical form, as a finite table. */
  function UnitOf(key: string): Option<string> {
    if key in {"g", "gram", "grams", "gr"} then Some("g")
    else if key in {"kg", "ml", "cl", "dl", "l", "tbsp", "tsp", "oz", "lb"} then Some(key)
    else if key in {"cup", "cups"} then Some("cup")
    else if key in {"pinch", "pinches"} then Some("pinch")
    else if key in {"slice", "slices"} then Some("slice")
    else if key in {"can", "cans"} then Some("can")
    else None
  }

  /** `replace(/[()[\].]/g, "")` */
  function DropMarks(s: string): string {
    if s == "" then ""
    else if s[0] == '(' || s[0] == ')' || s[0] == '[' || s[0] == ']' || s[0] == '.' then DropMarks(s[1..])
    else [s[0]] + DropMarks(s[1..])
  }

  /** `replace(/,+$/, "")` */
  function DropTrailingCommas(s: string): string {
    if s != "" && s[|s| - 1] == ',' then DropTrailingCommas(s[..|s| - 1]) else s
  }

  function NormalizeUnitToken(token: string): Option<string> {
    UnitOf(DropTrailingCommas(DropMarks(LowerText(Trim(token)))))
  }

  /** The quantity at the start of the tokens, and how many tokens it takes. */
  function LeadingQuantity(tokens: seq<string>): (r: (Option<real>, nat))
    ensures r.1 <= 2 && r.1 <= |tokens|
    ensures r.0.None? <==> r.1 == 0
  {
    if tokens == [] then (None, 0)
    else if |tokens| >= 2 && ParseStringNumber(tokens[0] + " " + tokens[1]).Some? then
      (ParseStringNumber(tokens[0] + " " + tokens[1]), 2)
    else if ParseStringNumber(tokens[0]).Some? then (ParseStringNumber(tokens[0]), 1)
    else (None, 0)
  }

  function UnitAfter(tokens: seq<string>): Option<string> {
    var (quantity, consumed) := LeadingQuantity(tokens);
    if quantity.Some? && consumed < |tokens| then NormalizeUnitToken(tokens[consumed]) else None
  }

  /** Index of the first token of the name. */
  function NameStart(tokens: seq<string>): (k: nat)
    ensures k <= |tokens|
  {
    LeadingQuantity(tokens).1 + (if UnitAfter(tokens).Some? then 1 else 0)
  }

  function ReadLine(value: string, index: nat): Option<IngredientLine> {
    var raw := Trim(value);
    if raw == "" then None
    else
      TrimShape(value);
      var tokens := Words(raw);
      var k := NameStart(tokens);
      var rest := Trim(Join(tokens[k..], " "));
      Some(IngredientLine(
        if rest != "" then rest else raw, LeadingQuantity(tokens).0, UnitAfter(tokens), index, raw))
  }

  method ParseIngredientLine(value: string, index: nat) returns (r: Option<IngredientLine>)
    ensures r == ReadLine(value, index)
  {
    var raw := Trim(value);
    if raw == "" {
      return None;
    }
    TrimShape(value);
    var tokens := Words(raw);
    var (quantity, consumed) := LeadingQuantity(tokens);
    var currentIndex := consumed;
    var unit: Option<string> := None;
    if quantity.Some? && currentIndex < |tokens| {
      unit := NormalizeUnitToken(tokens[currentIndex]);
      if unit.Some? {
        currentIndex := currentIndex + 1;
      }
    }
    var name := Trim(Join(tokens[currentIndex..], " "));
    if name == "" {
      name := raw;
    }
    r := Some(IngredientLine(name, quantity, unit, index, raw));
  }

  // ---------------------------------------------------------------- no token is lost

  /**
   * Exactly when a token is left for the name, the tokens of the line are the consumed tokens followed
   * by the tokens of the name. Else the whole line is the name, so its tokens occur twice. A name is
   * never empty.
   */
  lemma {:induction false} TokensConserved(value: string, index: nat)
    ensures ReadLine(value, index).None? <==> AllSpace(value)
    ensures ReadLine(value, index).Some? ==>
      var line := ReadLine(value, index).value;
      && CleanText(line.raw) && CleanText(line.name) && line.raw == Trim(value)
      && var tokens := Words(line.raw);
         var k := NameStart(tokens);
         && (tokens == tokens[..k] + Words(line.name) <==> k < |tokens|)
         && (k == |tokens| ==> line.name == line.raw)
         && (line.quantity.None? ==> k == 0)
  {
    hide Words, TrimStart, TrimEnd, LeadingQuantity, UnitAfter, IsSpace;
    TrimShape(value);
    var raw := Trim(value);
    if raw != "" {
      var tokens := Words(raw);
      var k := NameStart(tokens);
      if k < |tokens| {
        JoinedWords(tokens[k..]);
        TrimIsIdentity(Join(tokens[k..], " "));
        assert tokens == tokens[..k] + tokens[k..];
      } else {
        assert tokens[k..] == [];
        TrimIsIdentity("");
      }
      NoQuantityNoUnit(tokens);
    }
  }

  /** "2 cups" leaves nothing for the name: its tokens are the quantity and the unit, and the name again. */
  lemma {:induction false} TwoCupsIsNamedTwoCups(index: nat)
    ensures ReadLine("2 cups", index) == Some(IngredientLine("2 cups", Some(2.0), Some("cup"), index, "2 cups"))
    ensures Trimmed("2 cups") && Words("2 cups") == ["2", "cups"] && NameStart(["2", "cups"]) == 2
  {
    hide Words, LeadingQuantity, UnitAfter;
    TwoCupsTokens();
    TwoCupsMeasure();
    assert NameStart(["2", "cups"]) == 2;
    hide NameStart;
    TrimIsIdentity("2 cups");
    TrimIsIdentity("");
    hide Trim, TrimStart, TrimEnd;
    assert ["2", "cups"][2..] == [];
  }

  lemma {:induction false} TwoCupsTokens()
    ensures Trimmed("2 cups") && Words("2 cups") == ["2", "cups"]
  {
    hide Words;
    var tokens := ["2", "cups"];
    assert "2 cups" == "2" + " " + "cups";
    assert Join(tokens[1..], " ") == "cups";
    assert Join(tokens, " ") == "2 cups";
    JoinedWords(tokens);
  }

  lemma {:induction false} TwoCupsMeasure()
    ensures LeadingQuantity(["2", "cups"]) == (Some(2.0), 1) && UnitAfter(["2", "cups"]) == Some("cup")
  {
    hide ParseStringNumber, NormalizeUnitToken;
    ParseWhole("2");
    assert NatOf("2") == 2;
    CupsIsAUnit();
    TwoTokensAreNoNumber("2", "cups");
  }

  lemma {:induction false} CupsIsAUnit()
    ensures IsWord("cups") && !HasSlash("cups") && NormalizeUnitToken("cups") == Some("cup")
  {
    assert UnitOf("cups") == Some("cup");
    hide UnitOf, NormalizeUnitToken;
    KnownSpelling("cups", "cups");
    UnitHasNoSlash("cups");
  }

  lemma {:induction false} NoQuantityNoUnit(tokens: seq<string>)
    ensures LeadingQuantity(tokens).0.None? ==> NameStart(tokens) == 0
  {
  }

  // ---------------------------------------------------------------- round trip

  datatype Measure = Whole(n: nat) | Fraction(n: nat, d: nat) | Mixed(w: nat, n: nat, d: nat)

  predicate ValidMeasure(q: Measure) { q.Whole? || q.d != 0 }

  function MeasureValue(q: Measure): real
    requires ValidMeasure(q)
  {
    match q
    case Whole(n) => n as real
    case Fraction(n, d) => n as real / d as real
    case Mixed(w, n, d) => w as real + n as real / d as real
  }

  function PrintMeasure(q: Measure): string {
    match q
    case Whole(n) => PrintNat(n)
    case Fraction(n, d) => PrintNat(n) + "/" + PrintNat(d)
    case Mixed(w, n, d) => PrintNat(w) + " " + (PrintNat(n) + "/" + PrintNat(d))
  }

  function MeasureTokens(q: Measure): (tokens: seq<string>)
    ensures |tokens| == if q.Mixed? then 2 else 1
  {
    match q
    case Whole(n) => [PrintNat(n)]
    case Fraction(n, d) => [PrintNat(n) + "/" + PrintNat(d)]
    case Mixed(w, n, d) => [PrintNat(w), PrintNat(n) + "/" + PrintNat(d)]
  }

  predicate HasSlash(s: string) { exists i :: 0 <= i < |s| && s[i] == '/' }

  lemma {:induction false} DropMarksKeepsSlash(s: string)
    ensures HasSlash(s) ==> HasSlash(DropMarks(s))
  {
    if s != "" && HasSlash(s) {
      var i :| 0 <= i < |s| && s[i] == '/';
      var r := DropMarks(s[1..]);
      DropMarksKeepsSlash(s[1..]);
      if i == 0 {
        assert DropMarks(s)[0] == '/';
      } else {
        assert s[1..][i - 1] == '/';
        var j :| 0 <= j < |r| && r[j] == '/';
        assert DropMarks(s) == r || DropMarks(s)[j + 1] == '/';
      }
    }
  }

  lemma {:induction false} DropCommasKeepsSlash(s: string)
    ensures HasSlash(s) ==> HasSlash(DropTrailingCommas(s))
  {
    if HasSlash(s) && s[|s| - 1] == ',' {
      var i :| 0 <= i < |s| && s[i] == '/';
      assert s[..|s| - 1][i] == '/';
      DropCommasKeepsSlash(s[..|s| - 1]);
    }
  }

  // ---------------------------------------------------------------- spellings of a unit

  predicate LowerLetters(s: string) { s != "" && forall i :: 0 <= i < |s| ==> 'a' <= s[i] <= 'z' }

  lemma {:induction false} UnitKeysAreLetters(key: string)
    ensures UnitOf(key).Some? ==> LowerLetters(key)
  {
  }

  /** The canonical units are spellings of themselves, and so are their plurals and short forms. */
  lemma {:induction false} UnitFamilies(key: string)
    ensures UnitOf(key).Some? ==> UnitOf(UnitOf(key).value) == UnitOf(key)
    ensures forall unit ::
      unit in {"g", "kg", "ml", "cl", "dl", "l", "cup", "tbsp", "tsp", "oz", "lb", "pinch", "slice", "can"} ==>
        UnitOf(unit) == Some(unit)
    ensures UnitOf("gr") == UnitOf("gram") == UnitOf("grams") == Some("g")
    ensures UnitOf("cups") == Some("cup") && UnitOf("pinches") == Some("pinch")
    ensures UnitOf("slices") == Some("slice") && UnitOf("cans") == Some("can")
  {
  }

  predicate IsMark(c: char) { c in {'(', ')', '[', ']', '.'} }

  /** `t` is `u` in any case, with marks put in anywhere. */
  predicate Marked(t: string, u: string) {
    if t == "" then u == ""
    else
      || (IsMark(t[0]) && Marked(t[1..], u))
      || (u != "" && Lower(t[0]) == u[0] && Marked(t[1..], u[1..]))
  }

  function Commas(n: nat): string { if n == 0 then "" else Commas(n - 1) + "," }

  /** A spelling of a key: any case, marks anywhere, any commas behind. */
  ghost predicate Spells(t: string, key: string) { exists n :: Marked(t, key + Commas(n)) }

  predicate NoMarks(s: string) { forall i :: 0 <= i < |s| ==> !IsMark(s[i]) }

  lemma {:induction false} MarkedMatches(t: string, u: string)
    requires NoMarks(u)
    ensures DropMarks(LowerText(t)) == u <==> Marked(t, u)
  {
    if t == "" {
    } else {
      MarkedMatches(t[1..], u);
      var low := LowerText(t);
      assert low[1..] == LowerText(t[1..]);
      assert low[0] == Lower(t[0]) && (IsMark(t[0]) <==> IsMark(low[0]));
      if u != "" {
        MarkedMatches(t[1..], u[1..]);
        assert u == [u[0]] + u[1..];
      }
    }
  }

  lemma {:induction false} DropMarksLeavesNone(s: string)
    ensures NoMarks(DropMarks(s))
  {
    if s == "" {
    } else {
      DropMarksLeavesNone(s[1..]);
    }
  }

  lemma {:induction false} CommasAreCommas(n: nat)
    ensures |Commas(n)| == n && forall i :: 0 <= i < n ==> Commas(n)[i] == ','
  {
    if n == 0 {
    } else {
      CommasAreCommas(n - 1);
    }
  }

  lemma {:induction false} DropsCommas(key: string, n: nat)
    requires LowerLetters(key)
    ensures DropTrailingCommas(key + Commas(n)) == key
  {
    var s := key + Commas(n);
    if n == 0 {
      assert s == key;
    } else {
      DropsCommas(key, n - 1);
      assert s[..|s| - 1] == key + Commas(n - 1);
    }
  }

  lemma {:induction false} CommasWereDropped(s: string) returns (n: nat)
    ensures s == DropTrailingCommas(s) + Commas(n)
  {
    if s != "" && s[|s| - 1] == ',' {
      var m := CommasWereDropped(s[..|s| - 1]);
      n := m + 1;
      assert s == s[..|s| - 1] + ",";
    } else {
      n := 0;
      assert s + "" == s;
    }
  }

  lemma {:induction false} KeyAndCommasHaveNoMarks(key: string, n: nat)
    requires LowerLetters(key)
    ensures NoMarks(key + Commas(n))
  {
    CommasAreCommas(n);
  }

  /** A token is read as a unit exactly when it spells one of the unit's keys. */
  lemma {:induction false} UnitSpellings(t: string, unit: string)
    requires IsWord(t)
    ensures NormalizeUnitToken(t) == Some(unit) <==> exists key :: UnitOf(key) == Some(unit) && Spells(t, key)
  {
    hide UnitOf, DropMarks, DropTrailingCommas, LowerText, Marked, NoMarks;
    TrimIsIdentity(t);
    var plain := DropMarks(LowerText(t));
    if NormalizeUnitToken(t) == Some(unit) {
      var key := DropTrailingCommas(plain);
      var n := CommasWereDropped(plain);
      DropMarksLeavesNone(LowerText(t));
      MarkedMatches(t, plain);
      assert UnitOf(key) == Some(unit) && Spells(t, key);
    }
    forall key | UnitOf(key) == Some(unit) && Spells(t, key) ensures NormalizeUnitToken(t) == Some(unit) {
      SpellingIsRead(t, key);
    }
  }

  lemma {:induction false} SpellingIsRead(t: string, key: string)
    requires IsWord(t) && UnitOf(key).Some? && Spells(t, key)
    ensures NormalizeUnitToken(t) == UnitOf(key)
  {
    hide UnitOf, DropMarks, DropTrailingCommas, LowerText, Marked;
    TrimIsIdentity(t);
    UnitKeysAreLetters(key);
    var n :| Marked(t, key + Commas(n));
    KeyAndCommasHaveNoMarks(key, n);
    MarkedMatches(t, key + Commas(n));
    DropsCommas(key, n);
  }

  /** A key in any case is a spelling of it. */
  lemma {:induction false} AnyCaseSpells(t: string, key: string)
    requires |t| == |key| && forall i :: 0 <= i < |t| ==> Lower(t[i]) == key[i]
    ensures Spells(t, key)
  {
    SameLettersAreMarked(t, key);
    assert key + Commas(0) == key;
  }

  lemma {:induction false} SameLettersAreMarked(t: string, key: string)
    requires |t| == |key| && forall i :: 0 <= i < |t| ==> Lower(t[i]) == key[i]
    ensures Marked(t, key)
  {
    if t == "" {
    } else {
      SameLettersAreMarked(t[1..], key[1..]);
    }
  }

  /** Every key of the table, in any case, is read as its unit. */
  lemma {:induction false} KnownSpelling(key: string, t: string)
    requires UnitOf(key).Some? && |t| == |key| && forall i :: 0 <= i < |t| ==> Lower(t[i]) == key[i]
    ensures IsWord(t) && NormalizeUnitToken(t) == UnitOf(key)
  {
    hide UnitOf, NormalizeUnitToken, Spells;
    UnitKeysAreLetters(key);
    assert forall i :: 0 <= i < |t| ==> 'a' <= Lower(t[i]) <= 'z';
    AnyCaseSpells(t, key);
    SpellingIsRead(t, key);
  }

  lemma {:induction false} UnitHasNoSlash(u: string)
    requires IsWord(u) && NormalizeUnitToken(u).Some?
    ensures !HasSlash(u)
  {
    hide UnitOf, DropMarks, DropTrailingCommas, TrimStart, TrimEnd;
    TrimIsIdentity(u);
    var low := LowerText(u);
    if HasSlash(u) {
      var i :| 0 <= i < |u| && u[i] == '/';
      assert low[i] == '/';
      DropMarksKeepsSlash(low);
      DropCommasKeepsSlash(DropMarks(low));
      UnitKeysAreLetters(DropTrailingCommas(DropMarks(low)));
    }
  }

  /** A word and a second word without a slash are not one number. */
  lemma {:induction false} TwoTokensAreNoNumber(a: string, u: string)
    requires IsWord(a) && IsWord(u) && !HasSlash(u)
    ensures ParseStringNumber(a + " " + u).None?
  {
    hide NatOf, ToNumber, MatchFraction, MatchMixed, CommaToPoint, TrimStart, TrimEnd;
    var s := a + " " + u;
    assert s[0] == a[0] && s[|s| - 1] == u[|u| - 1];
    TrimIsIdentity(s);
    CommaToPointKeeps(s);
    var t := CommaToPoint(s);
    assert t[|a|] == ' ';
    NumberChars(t);
    FractionChars(t);
    NoMixed(a, u, t);
  }

  lemma {:induction false} NoMixed(a: string, u: string, t: string)
    requires IsWord(a) && !HasSlash(u) && |t| == |a + " " + u|
    requires forall i :: 0 <= i < |t| ==> t[i] == (a + " " + u)[i] || t[i] == '.'
    ensures MatchMixed(t).None?
  {
    hide NatOf, DigitRun, HasSlash, TrimStart;
    var n := DigitRun(t);
    if MatchMixed(t).Some? {
      var gap, r := SplitStart(t[n..]);
      SlashBefore(a, u, t, n, gap, r);
    }
  }

  lemma {:induction false} SlashBefore(a: string, u: string, t: string, n: nat, gap: string, r: string)
    requires n <= |t| && t[n..] == gap + r && HasSlash(r) && !HasSlash(u)
    requires |t| == |a + " " + u|
    requires forall i :: 0 <= i < |t| ==> t[i] == (a + " " + u)[i] || t[i] == '.'
    ensures n < |a|
  {
    var i :| 0 <= i < |r| && r[i] == '/';
    var k := n + |gap| + i;
    assert t[k] == t[n..][|gap| + i] == r[i];
    assert forall j :: 0 <= j < |u| ==> (a + " " + u)[|a| + 1 + j] == u[j];
  }

  lemma {:induction false} MeasureParses(q: Measure)
    requires ValidMeasure(q)
    ensures ParseStringNumber(PrintMeasure(q)) == Some(MeasureValue(q))
    ensures AllWords(MeasureTokens(q))
    ensures PrintMeasure(q) == Join(MeasureTokens(q), " ")
  {
    hide NatOf, PrintNat, ParseStringNumber;
    match q
    case Whole(n) =>
      NatRoundTrip(n);
      ParseWhole(PrintNat(n));
    case Fraction(n, d) =>
      NatRoundTrip(n); NatRoundTrip(d);
      ParseFraction(PrintNat(n), PrintNat(d));
    case Mixed(w, n, d) =>
      NatRoundTrip(w); NatRoundTrip(n); NatRoundTrip(d);
      ParseMixed(PrintNat(w), " ", PrintNat(n), PrintNat(d));
  }

  lemma {:induction false} MeasureLeads(q: Measure, u: string, rest: seq<string>)
    requires ValidMeasure(q) && IsWord(u) && !HasSlash(u)
    ensures LeadingQuantity(MeasureTokens(q) + [u] + rest) == (Some(MeasureValue(q)), |MeasureTokens(q)|)
  {
    hide NatOf, PrintNat, ParseStringNumber, MeasureValue, HasSlash;
    MeasureParses(q);
    var tokens := MeasureTokens(q) + [u] + rest;
    var first := MeasureTokens(q)[0];
    assert tokens[0] == first && tokens[|MeasureTokens(q)|] == u;
    if q.Mixed? {
      assert tokens[1] == MeasureTokens(q)[1];
      assert PrintMeasure(q) == tokens[0] + " " + tokens[1];
    } else {
      TwoTokensAreNoNumber(first, u);
    }
  }

  /** Tokens that are a number together: one token, or two that are a number with a space between them. */
  ghost predicate QuantityTokens(tokens: seq<string>, x: real) {
    && AllWords(tokens) && (|tokens| == 1 || |tokens| == 2)
    && ReadsNumber(Str(Join(tokens, " ")), x)
  }

  lemma {:induction false} MeasureIsQuantity(q: Measure)
    requires ValidMeasure(q)
    ensures QuantityTokens(MeasureTokens(q), MeasureValue(q)) && Join(MeasureTokens(q), " ") == PrintMeasure(q)
  {
    hide PrintMeasure, MeasureValue, ParseStringNumber, ReadsNumber, MeasureTokens, Join;
    MeasureParses(q);
    assert |MeasureTokens(q)| == 1 || |MeasureTokens(q)| == 2;
    FiniteNumberMatches(Str(PrintMeasure(q)), MeasureValue(q));
  }

  lemma {:induction false} QuantityLeads(qs: seq<string>, x: real, u: string, rest: seq<string>)
    requires QuantityTokens(qs, x) && IsWord(u) && !HasSlash(u)
    ensures LeadingQuantity(qs + [u] + rest) == (Some(x), |qs|)
  {
    hide ParseStringNumber, HasSlash, ReadsNumber;
    FiniteNumberMatches(Str(Join(qs, " ")), x);
    var tokens := qs + [u] + rest;
    assert tokens[0] == qs[0] && tokens[|qs|] == u;
    if |qs| == 2 {
      assert tokens[1] == qs[1];
      assert Join(qs[1..], " ") == qs[1];
      assert Join(qs, " ") == tokens[0] + " " + tokens[1];
    } else {
      TwoTokensAreNoNumber(qs[0], u);
    }
  }

  lemma {:induction false} LineTokens(qs: seq<string>, u: string, name: string)
    requires AllWords(qs) && (|qs| == 1 || |qs| == 2) && IsWord(u) && CleanText(name)
    ensures CleanText(Join(qs, " ") + " " + (u + " " + name))
    ensures Words(Join(qs, " ") + " " + (u + " " + name)) == qs + [u] + Words(name)
  {
    hide Words;
    var tail := u + " " + name;
    FirstWord(u, name);
    if |qs| == 2 {
      var inner := qs[1] + " " + tail;
      FirstWord(qs[1], tail);
      FirstWord(qs[0], inner);
      assert Join(qs[1..], " ") == qs[1];
      assert Join(qs, " ") + " " + tail == qs[0] + " " + inner;
      assert [qs[0]] + ([qs[1]] + ([u] + Words(name))) == qs + [u] + Words(name);
    } else {
      FirstWord(qs[0], tail);
      assert [qs[0]] + ([u] + Words(name)) == qs + [u] + Words(name);
    }
  }

  /**
   * A number in one or two tokens, any spelling of a unit, and a name: the line is read as the number,
   * the unit and the name with its inner white space collapsed.
   */
  lemma {:induction false} LineRoundTrip(
      qs: seq<string>, x: real, u: string, key: string, name: string, index: nat)
    requires QuantityTokens(qs, x) && CleanText(name)
    requires IsWord(u) && UnitOf(key).Some? && Spells(u, key)
    ensures
      var line := Join(qs, " ") + " " + (u + " " + name);
      ReadLine(line, index) == Some(IngredientLine(Join(Words(name), " "), Some(x), UnitOf(key), index, line))
  {
    hide Words, Join, LeadingQuantity, NormalizeUnitToken, HasSlash, UnitOf, Spells, ReadsNumber;
    var line := Join(qs, " ") + " " + (u + " " + name);
    SpellingIsRead(u, key);
    LineTokens(qs, u, name);
    UnitHasNoSlash(u);
    QuantityLeads(qs, x, u, Words(name));
    TrimIsIdentity(line);
    var tokens, k := Words(line), |qs|;
    assert tokens[k] == u;
    assert NameStart(tokens) == k + 1;
    assert tokens[k + 1..] == Words(name);
    JoinedWords(Words(name));
    TrimIsIdentity(Join(Words(name), " "));
  }

  /** The same for a printed whole number, fraction or mixed number. */
  lemma {:induction false} PrintedLineRoundTrip(q: Measure, u: string, key: string, name: string, index: nat)
    requires ValidMeasure(q) && CleanText(name)
    requires IsWord(u) && UnitOf(key).Some? && Spells(u, key)
    ensures
      var line := PrintMeasure(q) + " " + (u + " " + name);
      ReadLine(line, index) == Some(IngredientLine(
        Join(Words(name), " "), Some(MeasureValue(q)), UnitOf(key), index, line))
  {
    hide ReadLine, PrintMeasure, MeasureValue, UnitOf, Spells;
    MeasureIsQuantity(q);
    LineRoundTrip(MeasureTokens(q), MeasureValue(q), u, key, name, index);
  }

  /** "2 Cups flour" is two cups of flour. */
  lemma {:induction false} TwoCupsFlour(index: nat)
    ensures ReadLine("2 Cups flour", index) ==
      Some(IngredientLine("flour", Some(2.0), Some("cup"), index, "2 Cups flour"))
  {
    hide ReadLine, PrintNat, Spells, Words, UnitOf;
    TwoIsPrinted();
    AnyCaseSpells("Cups", "cups");
    assert UnitOf("cups") == Some("cup") by { UnitFamilies("cups"); }
    PrintedLineRoundTrip(Whole(2), "Cups", "cups", "flour", index);
    assert "2" + " " + ("Cups" + " " + "flour") == "2 Cups flour";
    SingleSpacedName(["flour"]);
  }

  lemma {:induction false} TwoIsPrinted()
    ensures PrintNat(2) == "2"
  {
  }

  // ---------------------------------------------------------------- every line

  /** The number that the tokens start with takes `used` of them: two if these read as one, else one. */
  ghost predicate StartsWith(tokens: seq<string>, x: real, used: nat) {
    || (used == 2 && |tokens| >= 2 && ReadsNumber(Str(tokens[0] + " " + tokens[1]), x))
    || (used == 1 && |tokens| >= 1 && ReadsNumber(Str(tokens[0]), x)
        && (|tokens| >= 2 ==> forall y :: !ReadsNumber(Str(tokens[0] + " " + tokens[1]), y)))
  }

  lemma {:induction false} QuantityExactly(tokens: seq<string>, x: real, used: nat)
    ensures LeadingQuantity(tokens) == (Some(x), used) <==> StartsWith(tokens, x, used)
  {
    hide ParseStringNumber, ReadsNumber;
    if tokens != [] {
      forall y ensures ParseStringNumber(tokens[0]) == Some(y) <==> ReadsNumber(Str(tokens[0]), y) {
        FiniteNumberMatches(Str(tokens[0]), y);
      }
    }
    if |tokens| >= 2 {
      var pair := tokens[0] + " " + tokens[1];
      forall y ensures ParseStringNumber(pair) == Some(y) <==> ReadsNumber(Str(pair), y) {
        FiniteNumberMatches(Str(pair), y);
      }
      var both := ParseStringNumber(pair);
      assert both.Some? ==> ReadsNumber(Str(pair), both.value);
    }
  }

  /** Token `k` spells a unit. */
  ghost predicate UnitAt(tokens: seq<string>, k: nat, unit: string) {
    k < |tokens| && exists key :: UnitOf(key) == Some(unit) && Spells(tokens[k], key)
  }

  /**
   * Every line: its quantity is the number it starts with, its unit is the one the next token spells,
   * and its name is the rest, joined by single spaces, or the whole line when nothing is left.
   */
  lemma {:induction false} LineExactly(value: string, index: nat)
    requires !AllSpace(value)
    ensures
      var raw := Trim(value);
      && CleanText(raw)
      && exists used, k ::
        && ReadLine(value, index).Some?
        && LineParts(ReadLine(value, index).value, raw, index, used, k)
  {
    hide Words, Join, LeadingQuantity, NormalizeUnitToken, Trim, UnitOf, Spells, StartsWith;
    TrimShape(value);
    var raw := Trim(value);
    var tokens := Words(raw);
    var line := ReadLine(value, index).value;
    var (quantity, used) := LeadingQuantity(tokens);
    forall x, n: nat ensures LeadingQuantity(tokens) == (Some(x), n) <==> StartsWith(tokens, x, n) {
      QuantityExactly(tokens, x, n);
    }
    if used < |tokens| {
      forall unit
        ensures NormalizeUnitToken(tokens[used]) == Some(unit) <==> UnitAt(tokens, used, unit)
      {
        UnitSpellings(tokens[used], unit);
      }
    }
    var k := NameStart(tokens);
    if k < |tokens| { JoinedWords(tokens[k..]); TrimIsIdentity(Join(tokens[k..], " ")); } else { NothingLeft(tokens); }
    assert LineParts(line, raw, index, used, k);
  }

  lemma {:induction false} NothingLeft(tokens: seq<string>)
    ensures Trim(Join(tokens[|tokens|..], " ")) == ""
  {
    assert tokens[|tokens|..] == [];
    TrimIsIdentity("");
  }

  ghost predicate LineParts(line: IngredientLine, raw: string, index: nat, used: nat, k: nat)
    requires CleanText(raw)
  {
    var tokens := Words(raw);
    && line.raw == raw && line.order == index && used <= k <= |tokens|
    && (forall x :: line.quantity == Some(x) <==> StartsWith(tokens, x, used))
    && (line.quantity.None? ==> used == 0 && forall x, n: nat :: !StartsWith(tokens, x, n))
    && (forall unit :: line.unit == Some(unit) <==> line.quantity.Some? && UnitAt(tokens, used, unit))
    && k == used + (if line.unit.Some? then 1 else 0)
    && line.name == if k < |tokens| then Join(tokens[k..], " ") else raw
  }

  /** A name whose words are separated by single spaces comes back unchanged. */
  lemma {:induction false} SingleSpacedName(words: seq<string>)
    requires words != [] && AllWords(words)
    ensures CleanText(Join(words, " ")) && Join(Words(Join(words, " ")), " ") == Join(words, " ")
  {
    JoinedWords(words);
  }
}
