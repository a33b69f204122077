/**
 * Where the properties of a normalised recipe come from, in both schemas: order and sources of its entries, its
 * times and its yield.
 */
module RecipeSources {
  import opened Text
  import opened Json
  import opened Numbers
  import opened Schemas
  import opened Durations
  import opened Readings
  import C = CanonicalRecipe
  import J = RecipeJsonLd

  // ---------------------------------------------------------------- list entries keep their order

  /** What a reader makes of the entry at a position. */
  predicate Reads(f: (Json, nat) -> seq<Json>, items: seq<Json>, position: nat, k: int, result: seq<Json>) {
    0 <= k < |items| && f(items[k], position + k) == result
  }

  /** `out` holds the results of the entries at the positions `sources`, in order; the other entries gave none. */
  ghost predicate IsSelection(
      f: (Json, nat) -> seq<Json>, items: seq<Json>, position: nat, out: seq<Json>, sources: seq<nat>) {
    && |sources| == |out|
    && (forall i :: 0 <= i < |sources| ==> Reads(f, items, position, sources[i], [out[i]]))
    && (forall i, j :: 0 <= i < j < |sources| ==> sources[i] < sources[j])
    && (forall k :: 0 <= k < |items| && k !in sources ==> Reads(f, items, position, k, []))
  }

  function Shift(sources: seq<nat>): (r: seq<nat>)
    ensures |r| == |sources| && forall i :: 0 <= i < |r| ==> r[i] == sources[i] + 1
  {
    seq(|sources|, i requires 0 <= i < |sources| => sources[i] + 1)
  }

  lemma {:induction false} NotShifted(sources: seq<nat>, k: nat)
    ensures k in sources <==> k + 1 in Shift(sources)
  {
    if k in sources {
      var i :| 0 <= i < |sources| && sources[i] == k;
      assert Shift(sources)[i] == k + 1;
    }
  }

  lemma {:induction false} ReadsBehind(
      f: (Json, nat) -> seq<Json>, x: Json, items: seq<Json>, position: nat, k: nat, result: seq<Json>)
    requires Reads(f, items, position + 1, k, result)
    ensures Reads(f, [x] + items, position, k + 1, result)
  {
    assert ([x] + items)[k + 1] == items[k];
  }

  lemma {:induction false} SkipsHead(
      f: (Json, nat) -> seq<Json>, x: Json, items: seq<Json>, position: nat, out: seq<Json>, sources: seq<nat>)
    requires f(x, position) == [] && IsSelection(f, items, position + 1, out, sources)
    ensures IsSelection(f, [x] + items, position, out, Shift(sources))
  {
    var all, shifted := [x] + items, Shift(sources);
    assert Reads(f, all, position, 0, []);
    hide Reads, Shift;
    forall i | 0 <= i < |shifted| ensures Reads(f, all, position, shifted[i], [out[i]]) {
      ReadsBehind(f, x, items, position, sources[i], [out[i]]);
    }
    forall k | 0 <= k < |all| && k !in shifted ensures Reads(f, all, position, k, []) {
      if k > 0 {
        NotShifted(sources, k - 1);
        ReadsBehind(f, x, items, position, k - 1, []);
      }
    }
  }

  lemma {:induction false} TakesHead(
      f: (Json, nat) -> seq<Json>, x: Json, y: Json, items: seq<Json>, position: nat, out: seq<Json>,
      sources: seq<nat>)
    requires f(x, position) == [y] && IsSelection(f, items, position + 1, out, sources)
    ensures IsSelection(f, [x] + items, position, [y] + out, [0] + Shift(sources))
  {
    var all, shifted := [x] + items, Shift(sources);
    var taken := [0] + shifted;
    assert Reads(f, all, position, 0, [y]);
    hide Reads, Shift;
    forall i | 0 <= i < |taken| ensures Reads(f, all, position, taken[i], [([y] + out)[i]]) {
      if i > 0 { ReadsBehind(f, x, items, position, sources[i - 1], [out[i - 1]]); }
    }
    assert taken[0] == 0;
    assert forall k :: k in shifted ==> k in taken;
    forall k | 0 <= k < |all| && k !in taken ensures Reads(f, all, position, k, []) {
      NotShifted(sources, k - 1);
      ReadsBehind(f, x, items, position, k - 1, []);
    }
  }

  /** Readers that give at most one result per entry only drop entries: what is left keeps its order. */
  lemma {:induction false} FlatMapSelects(f: (Json, nat) -> seq<Json>, items: seq<Json>, position: nat)
    returns (sources: seq<nat>)
    requires forall j, p :: |f(j, p)| <= 1
    ensures IsSelection(f, items, position, FlatMap(f, items, position), sources)
  {
    if items == [] {
      sources := [];
    } else {
      var rest := FlatMapSelects(f, items[1..], position + 1);
      var tail := FlatMap(f, items[1..], position + 1);
      var head := f(items[0], position);
      hide IsSelection;
      assert items == [items[0]] + items[1..];
      if head == [] {
        SkipsHead(f, items[0], items[1..], position, tail, rest);
        sources := Shift(rest);
        assert head + tail == tail;
      } else {
        assert head == [head[0]];
        TakesHead(f, items[0], head[0], items[1..], position, tail, rest);
        sources := [0] + Shift(rest);
      }
    }
  }

  function ItemsOf(j: Json): seq<Json> { if j.Arr? then j.items else [] }

  predicate HasEntry(f: (Json, nat) -> seq<Json>, j: Json) {
    exists i :: 0 <= i < |ItemsOf(j)| && f(ItemsOf(j)[i], i) != []
  }

  /** `v` lists what the reader makes of the entries of `j`, in their order, and is absent when that is nothing. */
  ghost predicate EntriesFrom(f: (Json, nat) -> seq<Json>, j: Json, v: Json) {
    && (v == Undef || (v.Arr? && v.items != []))
    && exists sources :: IsSelection(f, ItemsOf(j), 0, ItemsOf(v), sources)
  }

  lemma {:induction false} EntryListIsFrom(f: (Json, nat) -> seq<Json>, j: Json)
    requires forall j, p :: |f(j, p)| <= 1
    ensures EntriesFrom(f, j, EntryList(f, j))
    ensures EntryList(f, j) != Undef <==> HasEntry(f, j)
  {
    var sources := FlatMapSelects(f, ItemsOf(j), 0);
    ItemsOfList(f, j);
    hide EntryList, IsSelection, HasEntry;
    SelectionHasEntry(f, j, ItemsOf(EntryList(f, j)), sources);
  }

  lemma {:induction false} ItemsOfList(f: (Json, nat) -> seq<Json>, j: Json)
    ensures
      var v := EntryList(f, j);
      && FlatMap(f, ItemsOf(j), 0) == ItemsOf(v)
      && (v == Undef || (v.Arr? && v.items != [])) && (v == Undef <==> ItemsOf(v) == [])
  {
  }

  lemma {:induction false} SelectionHasEntry(
      f: (Json, nat) -> seq<Json>, j: Json, out: seq<Json>, sources: seq<nat>)
    requires IsSelection(f, ItemsOf(j), 0, out, sources)
    ensures out != [] <==> HasEntry(f, j)
  {
    var items := ItemsOf(j);
    hide ItemsOf;
    if out != [] {
      assert Reads(f, items, 0, sources[0], [out[0]]);
    } else {
      forall i | 0 <= i < |items| ensures f(items[i], i) == [] {
        assert Reads(f, items, 0, i, []);
      }
    }
  }

  // ---------------------------------------------------------------- canonical recipes

  lemma {:induction false} CanonicalOutput(value: Json, k: Key)
    requires k in C.OUTPUT
    ensures C.NormalizeCanonicalRecipe(value).Obj?
    ensures Get(C.NormalizeCanonicalRecipe(value).fields, k) == C.OutputValue(k, FieldsOf(value))
  {
    hide C.ParseField, C.IsField, C.OutputValue, C.OUTPUT;
    var src := FieldsOf(value);
    C.SchemaIsTotal(value);
    C.AllSettle(src);
    CanonicalKept(k, src);
  }

  lemma {:induction false} CanonicalKept(k: Key, src: Fields)
    requires k in C.OUTPUT && C.Settles(k, Get(src, k))
    requires C.Settles(Key.TotalTimeMin, Get(src, Key.TotalTimeMin))
    ensures C.Kept(k, C.OutputValue(k, src)) <==> !C.OutputValue(k, src).Undef?
  {
    hide C.ParseField, C.IsField, C.Kept;
    C.KeptIsPresent(k, C.OutputValue(k, src));
    C.TimesAreTimes(C.FieldValue(Key.TotalTimeMin, Get(src, Key.TotalTimeMin)));
  }

  /** The usable ingredients are those of the input in their order, each read with its position. */
  lemma {:induction false} IngredientsKeepOrder(value: Json)
    ensures C.NormalizeCanonicalRecipe(value).Obj?
    ensures EntriesFrom(C.IngredientEntry, Get(FieldsOf(value), Key.Ingredients),
      Get(C.NormalizeCanonicalRecipe(value).fields, Key.Ingredients))
  {
    hide C.NormalizeCanonicalRecipe, EntriesFrom, EntryList;
    var j := Get(FieldsOf(value), Key.Ingredients);
    CanonicalOutput(value, Key.Ingredients);
    C.IngredientListResult(j);
    EntriesAreSingle();
    EntryListIsFrom(C.IngredientEntry, j);
  }

  lemma {:induction false} EntriesAreSingle()
    ensures forall j, p :: |C.IngredientEntry(j, p)| <= 1
    ensures forall j, p :: |C.InstructionEntry(j, p)| <= 1
  {
    hide C.IngredientRecord, C.InstructionRecord, C.IngredientName, C.InstructionText, ToNonEmptyString;
  }

  lemma {:induction false} InstructionsKeepOrder(value: Json)
    ensures C.NormalizeCanonicalRecipe(value).Obj?
    ensures EntriesFrom(C.InstructionEntry, Get(FieldsOf(value), Key.Instructions),
      Get(C.NormalizeCanonicalRecipe(value).fields, Key.Instructions))
  {
    hide C.NormalizeCanonicalRecipe, EntriesFrom, EntryList;
    var j := Get(FieldsOf(value), Key.Instructions);
    CanonicalOutput(value, Key.Instructions);
    C.InstructionListResult(j);
    EntriesAreSingle();
    EntryListIsFrom(C.InstructionEntry, j);
  }

  /** The properties of an ingredient entry that can name it, best first; JSON-LD does not use the last. */
  const NAME_SOURCES: seq<Key> := [Key.Name, Key.Ingredient, Key.Line, Key.TextKey, Key.Raw]

  /** An ingredient is named by the first of these properties that holds text. */
  lemma {:induction false} NameFallsBack(entry: Fields, i: nat, text: string, position: nat)
    requires i < |NAME_SOURCES| && ToNonEmptyString(Get(entry, NAME_SOURCES[i])) == Some(text)
    requires forall j :: 0 <= j < i ==> ToNonEmptyString(Get(entry, NAME_SOURCES[j])).None?
    ensures var r := C.IngredientEntry(Obj(entry), position);
      |r| == 1 && r[0].Obj? && Get(r[0].fields, Key.Name) == Str(text)
    ensures i < 4 ==>
      var r := J.IngredientEntry(Obj(entry), position);
      |r| == 1 && r[0].Obj? && Get(r[0].fields, Key.Name) == Str(text)
  {
    NameIs(entry, i, text);
    hide ToNonEmptyString, C.IngredientName, J.IngredientName, C.OrderOf, J.OrderOf, ToFiniteNumber;
  }

  lemma {:induction false} NameIs(entry: Fields, i: nat, text: string)
    requires i < |NAME_SOURCES| && ToNonEmptyString(Get(entry, NAME_SOURCES[i])) == Some(text)
    requires forall j :: 0 <= j < i ==> ToNonEmptyString(Get(entry, NAME_SOURCES[j])).None?
    ensures C.IngredientName(entry) == Some(text)
    ensures i < 4 ==> J.IngredientName(entry) == Some(text)
  {
    NonEmptyStringIsClean(Get(entry, NAME_SOURCES[i]));
    var raw := OfText(C.IngredientRaw(entry));
    var names := [Get(entry, Key.Name), Get(entry, Key.Ingredient), Get(entry, Key.Line), Get(entry, Key.TextKey)];
    assert forall j :: 0 <= j < 4 ==> names[j] == Get(entry, NAME_SOURCES[j]);
    if i < 4 {
      FirstTextIs(names, i, text);
      FirstTextIs(names + [raw], i, text);
    } else {
      FirstTextIs(
        [Get(entry, Key.Raw), Get(entry, Key.Line), Get(entry, Key.TextKey), Get(entry, Key.Ingredient)], 0, text);
      NonEmptyStringIsClean(raw);
      FirstTextIs(names + [raw], 4, text);
    }
    assert names + [raw] == [names[0], names[1], names[2], names[3], raw];
  }

  lemma {:induction false} FirstTextIs(candidates: seq<Json>, i: nat, text: string)
    requires i < |candidates| && ToNonEmptyString(candidates[i]) == Some(text)
    requires forall j :: 0 <= j < i ==> ToNonEmptyString(candidates[j]).None?
    ensures FirstText(candidates) == Some(text)
  {
    if i == 0 {
    } else {
      FirstTextIs(candidates[1..], i - 1, text);
    }
  }

  // ---------------------------------------------------------------- JSON-LD recipes

  lemma {:induction false} JsonLdOutput(value: Json, k: Key)
    requires k in J.OUTPUT
    ensures J.NormalizeRecipeJsonLd(value).Obj?
    ensures Get(J.NormalizeRecipeJsonLd(value).fields, k) == J.OutputValue(k, FieldsOf(value))
  {
    hide J.ParseField, J.IsField, J.OutputValue, J.OUTPUT, J.IsRecipeRecord, J.Kept;
    var src := FieldsOf(value);
    J.SchemaIsTotal(value);
    forall x | x in J.OUTPUT ensures J.Typed(x, J.OutputValue(x, src)) {
      J.OutputTyped(x, src);
    }
    J.AssembledGet(J.OUTPUT, src);
  }

  /** Minutes as the recipe gives them: the explicit number, or else the duration text. */
  function GivenMinutes(src: Fields, minutesKey: Key, textKey: Key): Option<int> {
    var explicit := ToNonNegativeInteger(Get(src, minutesKey));
    if explicit.Some? then explicit else NormalizeMinutes(J.FieldValue(textKey, src))
  }

  function OrZero(n: Option<int>): int { if n.Some? then n.value else 0 }

  lemma {:induction false} MinutesGiven(src: Fields, minutesKey: Key, textKey: Key)
    requires minutesKey in {Key.PrepTimeMin, Key.CookTimeMin, Key.TotalTimeMin}
    ensures J.Minutes(minutesKey, textKey, src) == OfInt(GivenMinutes(src, minutesKey, textKey))
  {
    hide NormalizeMinutes, ToNonNegativeInteger, J.FieldValue;
    MinutesField(src, minutesKey);
  }

  lemma {:induction false} MinutesField(src: Fields, k: Key)
    requires k in {Key.PrepTimeMin, Key.CookTimeMin, Key.TotalTimeMin}
    ensures J.FieldValue(k, src) == OfInt(ToNonNegativeInteger(Get(src, k)))
  {
    assert k !in J.TEXT_KEYS;
    hide ToNonNegativeInteger, J.TEXT_KEYS;
    IntegersAreInRange(Get(src, k));
  }

  /**
   * The three times: prep and cook are given or absent, and a total that is not given is their sum,
   * with a missing one as zero.
   */
  lemma {:induction false} TimesAddUp(value: Json)
    ensures J.NormalizeRecipeJsonLd(value).Obj?
    ensures var src, out := FieldsOf(value), J.NormalizeRecipeJsonLd(value).fields;
      var prep := GivenMinutes(src, Key.PrepTimeMin, Key.PrepTime);
      var cook := GivenMinutes(src, Key.CookTimeMin, Key.CookTime);
      var total := GivenMinutes(src, Key.TotalTimeMin, Key.TotalTime);
      && Get(out, Key.PrepTimeMin) == OfInt(prep) && Get(out, Key.CookTimeMin) == OfInt(cook)
      && Get(out, Key.TotalTimeMin) == OfInt(
           if total.Some? then total
           else if prep.Some? || cook.Some? then Some(OrZero(prep) + OrZero(cook))
           else None)
  {
    hide J.NormalizeRecipeJsonLd, J.Minutes, GivenMinutes, J.FieldValue;
    var src := FieldsOf(value);
    JsonLdOutput(value, Key.PrepTimeMin);
    JsonLdOutput(value, Key.CookTimeMin);
    JsonLdOutput(value, Key.TotalTimeMin);
    MinutesGiven(src, Key.PrepTimeMin, Key.PrepTime);
    MinutesGiven(src, Key.CookTimeMin, Key.CookTime);
    MinutesGiven(src, Key.TotalTimeMin, Key.TotalTime);
  }

  /** The servings that a number gives: the nearest integer, at least one, and none for zero. */
  ghost predicate ServingsFrom(r: real, v: Json) {
    if r > 0.0 then exists n :: NearestFrom1(r, n) && v == Num(n as real) else v == Undef
  }

  /**
   * A yield written as a number, any white space and a label, such as "4 people" or "2,5  l", is read
   * as the rounded number and the label, and kept.
   */
  lemma {:induction false} YieldRoundTrip(value: Json, number: string, r: real, gap: string, text: string)
    requires Denotes(number, r) && gap != "" && AllSpace(gap) && CleanText(text) && J.OneLine(text)
    requires value.Obj? && Get(value.fields, Key.RecipeYield) == Str(number + gap + text)
    requires Key.Servings !in value.fields && Key.YieldUnitLabel !in value.fields
    ensures J.NormalizeRecipeJsonLd(value).Obj?
    ensures var out := J.NormalizeRecipeJsonLd(value).fields;
      && ServingsFrom(r, Get(out, Key.Servings)) && Get(out, Key.YieldUnitLabel) == Str(text)
      && Get(out, Key.RecipeYield) == Str(number + gap + text)
  {
    hide J.NormalizeRecipeJsonLd, J.DeriveServings, J.DeriveYieldLabel, Denotes, CleanText, J.FieldValue, ServingsFrom,
      J.OutputValue;
    YieldOutputs(value.fields);
    JsonLdOutput(value, Key.Servings);
    JsonLdOutput(value, Key.YieldUnitLabel);
    JsonLdOutput(value, Key.RecipeYield);
    PrintedYield(number, r, gap, text);
    YieldIsRead(number, r, gap, text);
    YieldFields(value.fields, number + gap + text);
  }

  lemma {:induction false} YieldOutputs(src: Fields)
    ensures J.OutputValue(Key.RecipeYield, src) == J.FieldValue(Key.RecipeYield, src)
    ensures J.OutputValue(Key.Servings, src) ==
      Coalesce(J.FieldValue(Key.Servings, src), J.DeriveServings(J.FieldValue(Key.RecipeYield, src)))
    ensures J.OutputValue(Key.YieldUnitLabel, src) ==
      J.DeriveYieldLabel(J.FieldValue(Key.YieldUnitLabel, src), J.FieldValue(Key.RecipeYield, src))
  {
    hide J.FieldValue, J.DeriveServings, J.DeriveYieldLabel;
  }

  lemma {:induction false} YieldFields(src: Fields, s: string)
    requires Get(src, Key.RecipeYield) == Str(s) && ToNonEmptyString(Str(s)) == Some(s)
    requires Key.Servings !in src && Key.YieldUnitLabel !in src
    ensures J.FieldValue(Key.RecipeYield, src) == Str(s)
    ensures J.FieldValue(Key.Servings, src) == Undef && J.FieldValue(Key.YieldUnitLabel, src) == Undef
  {
    assert RoundedPositive(Undef).None? && ToNonEmptyString(Undef).None?;
    hide ToNonEmptyString, RoundedPositive;
  }

  /** A number in a text is a decimal text, which starts with a digit and has no white space. */
  lemma {:induction false} NumberIsDecimal(number: string, r: real)
    requires Denotes(number, r)
    ensures DecimalText(number) && number != "" && !IsSpace(number[0])
  {
    hide NatOf, FractionOf;
    if i :| PointAt(number, i) && r == PointValue(number, i) { assert number[..i][0] == number[0]; }
  }

  lemma {:induction false} PrintedYield(number: string, r: real, gap: string, text: string)
    requires Denotes(number, r) && CleanText(text)
    ensures var s := number + gap + text; CleanText(s) && ToNonEmptyString(Str(s)) == Some(s)
  {
    hide Denotes, DecimalText;
    NumberIsDecimal(number, r);
    var s := number + gap + text;
    assert s[0] == number[0] && s[|s| - 1] == text[|text| - 1];
    NonEmptyStringIsClean(Str(s));
  }

  lemma {:induction false} YieldIsRead(number: string, r: real, gap: string, text: string)
    requires Denotes(number, r) && gap != "" && AllSpace(gap) && CleanText(text) && J.OneLine(text)
    ensures var s := Str(number + gap + text);
      ServingsFrom(r, J.DeriveServings(s)) && J.DeriveYieldLabel(Undef, s) == Str(text)
  {
    hide Denotes, DecimalText, ParseStringNumber, DecimalRun, CleanText, AllSpace;
    NumberIsDecimal(number, r);
    LeadingYield(number, gap, text);
    ParseDecimal(number, r);
    if r > 0.0 { PositiveRounds(r); }
    assert CleanText(text) ==> IsCleanStr(Str(text));
    NonEmptyStringIsClean(Str(text));
  }

  lemma {:induction false} LeadingYield(number: string, gap: string, text: string)
    requires DecimalText(number) && number != "" && gap != "" && AllSpace(gap) && CleanText(text) && J.OneLine(text)
    ensures J.MatchLeadingYield(number + gap + text) == Some((number, Some(text)))
  {
    hide DecimalText, DecimalRun;
    var s, tail := number + gap + text, gap + text;
    assert s == number + tail;
    assert IsSpace(tail[0]) && !IsSpace(text[0]);
    DecimalRunIs(number, tail);
    TrimStartSkips(gap, text);
    assert s[|number|..] == tail && s[..|number|] == number;
  }
}
