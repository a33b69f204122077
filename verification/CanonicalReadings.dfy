/**
 * Where every property of a canonical recipe comes from, and every property of its entries, as relations between
 * input and output.
 */
module CanonicalReadings {
  import opened Text
  import opened Json
  import opened Numbers
  import opened NumberGrammar
  import opened Lists
  import opened ListEntries
  import opened Schemas
  import opened RecipeParts
  import opened Readings
  import C = CanonicalRecipe
  import RecipeSources

  function Output(value: Json): Fields {
    var out := C.NormalizeCanonicalRecipe(value);
    if out.Obj? then out.fields else map[]
  }

  lemma {:induction false} OutputIs(value: Json, k: Key)
    requires k in C.OUTPUT
    ensures C.NormalizeCanonicalRecipe(value) == Obj(Output(value))
    ensures Get(Output(value), k) == C.OutputValue(k, FieldsOf(value))
  {
    hide C.NormalizeCanonicalRecipe, C.OutputValue, C.OUTPUT;
    RecipeSources.CanonicalOutput(value, k);
  }

  // ---------------------------------------------------------------- texts and numbers

  lemma {:induction false} TextsAreRead(value: Json, k: Key)
    requires k in {Key.Name, Key.Description, Key.YieldUnitLabel, Key.Cuisine}
    ensures TextFrom(FieldsOf(value), [k], Get(Output(value), k))
  {
    hide C.NormalizeCanonicalRecipe, ToNonEmptyString, Output, TextFrom;
    OutputIs(value, k);
    TextIsFrom(FieldsOf(value), k);
  }

  lemma {:induction false} NumbersAreRead(value: Json)
    ensures PositiveFrom(Get(FieldsOf(value), Key.Servings), Get(Output(value), Key.Servings))
    ensures WholeFrom(Get(FieldsOf(value), Key.PrepTimeMin), Get(Output(value), Key.PrepTimeMin))
  {
    hide C.NormalizeCanonicalRecipe, Output, PositiveFrom, WholeFrom, ToNonNegativeInteger, RoundedPositive;
    var src := FieldsOf(value);
    OutputIs(value, Key.Servings);
    OutputIs(value, Key.PrepTimeMin);
    IntegersAreInRange(Get(src, Key.Servings));
    IntegersAreInRange(Get(src, Key.PrepTimeMin));
    PositiveIsFrom(Get(src, Key.Servings));
    WholeIsFrom(Get(src, Key.PrepTimeMin));
  }

  /** The cooking time is the given one, rounded; without a usable one it is the total time; else absent. */
  lemma {:induction false} CookTimeFallsBack(value: Json)
    ensures
      var cook, total := Get(FieldsOf(value), Key.CookTimeMin), Get(FieldsOf(value), Key.TotalTimeMin);
      WholeFrom(if exists n :: RoundedFrom0(cook, n) then cook else total, Get(Output(value), Key.CookTimeMin))
  {
    hide C.NormalizeCanonicalRecipe, Output, ToNonNegativeInteger, RoundedFrom0;
    var cook, total := Get(FieldsOf(value), Key.CookTimeMin), Get(FieldsOf(value), Key.TotalTimeMin);
    OutputIs(value, Key.CookTimeMin);
    IntegersAreInRange(cook);
    IntegersAreInRange(total);
    WholeIsFrom(cook);
    WholeIsFrom(total);
  }

  // ---------------------------------------------------------------- keys and lists

  lemma {:induction false} KeysAreRead(value: Json)
    ensures KeyFrom(DIFFICULTIES, Get(FieldsOf(value), Key.Difficulty), Get(Output(value), Key.Difficulty))
    ensures KeyFrom(BUDGETS, Get(FieldsOf(value), Key.Budget), Get(Output(value), Key.Budget))
  {
    hide C.NormalizeCanonicalRecipe, Output, KeyFrom, NormalizeEnumValue;
    OutputIs(value, Key.Difficulty);
    OutputIs(value, Key.Budget);
    KeyIsFrom(DIFFICULTIES, Get(FieldsOf(value), Key.Difficulty));
    KeyIsFrom(BUDGETS, Get(FieldsOf(value), Key.Budget));
    OneOfTheAllowed(Get(FieldsOf(value), Key.Difficulty), DIFFICULTIES);
    OneOfTheAllowed(Get(FieldsOf(value), Key.Budget), BUDGETS);
  }

  lemma {:induction false} OneOfTheAllowed(j: Json, allowed: seq<string>)
    ensures ParseRule(OneOf(allowed), OfText(NormalizeEnumValue(j, allowed))) ==
      Ok(OfText(NormalizeEnumValue(j, allowed)))
  {
    hide NormalizeEnumKey, ToNonEmptyString;
  }

  lemma {:induction false} KeyListsAreRead(value: Json)
    ensures ListFrom(
      KeysOf(RECIPE_CATEGORIES, Get(FieldsOf(value), Key.Categories)), Get(Output(value), Key.Categories))
    ensures ListFrom(
      KeysOf(RECIPE_ATTRIBUTES, Get(FieldsOf(value), Key.Attributes)), Get(Output(value), Key.Attributes))
  {
    hide C.NormalizeCanonicalRecipe, Output, ListFrom, NormalizeEnumValues, KeysOf, EnumText, EnumList;
    OutputIs(value, Key.Categories);
    OutputIs(value, Key.Attributes);
    EnumerationsAreEnumText(); CategoriesAreEnumText();
    KeysResult(RECIPE_CATEGORIES, Get(FieldsOf(value), Key.Categories));
    KeysResult(RECIPE_ATTRIBUTES, Get(FieldsOf(value), Key.Attributes));
    KeysAreFrom(RECIPE_CATEGORIES, Get(FieldsOf(value), Key.Categories));
    KeysAreFrom(RECIPE_ATTRIBUTES, Get(FieldsOf(value), Key.Attributes));
  }

  lemma {:induction false} TextListsAreRead(value: Json)
    ensures ListFrom(EntriesOf(Get(FieldsOf(value), Key.Keywords)), Get(Output(value), Key.Keywords))
    ensures ImageFrom(Get(FieldsOf(value), Key.Image), Get(Output(value), Key.Image))
  {
    hide C.NormalizeCanonicalRecipe, Output, ListFrom, EntriesOf, ImageFrom, NormalizeStringList, NormalizeStringArray,
      ToNonEmptyString;
    var src := FieldsOf(value);
    OutputIs(value, Key.Keywords);
    OutputIs(value, Key.Image);
    ListIsFrom(Get(src, Key.Keywords));
    ImageIsFrom(Get(src, Key.Image));
    TextsRoundTrip(NormalizeStringList(Get(src, Key.Keywords)));
    TextsRoundTrip(NormalizeStringArray(Get(src, Key.Image)));
  }

  // ---------------------------------------------------------------- author and nutrition

  /** The type of an author, under either name. */
  predicate AuthorTypeFrom(fields: Fields, v: Json) {
    v == if Get(fields, Key.TypeKey) in {Str("Person"), Str("Organization")} then Get(fields, Key.TypeKey)
         else if Get(fields, Key.AtType) in {Str("Person"), Str("Organization")} then Get(fields, Key.AtType)
         else Undef
  }

  /** An author is a name, or a record with a name, a type, or both. */
  ghost predicate AuthorFrom(j: Json, v: Json) {
    if HasText(j) then exists t :: TextOf(j, t) && v == Obj(map[Key.Name := Str(t)])
    else if !j.Obj? then v == Undef
    else
      exists name, kind ::
        && TextFrom(j.fields, [Key.Name], name) && AuthorTypeFrom(j.fields, kind)
        && if name == Undef && kind == Undef then v == Undef else v == Obj(WithoutUndef(name, kind))
  }

  function WithoutUndef(name: Json, kind: Json): Fields {
    (if name == Undef then map[] else map[Key.Name := name])
    + (if kind == Undef then map[] else map[Key.TypeKey := kind])
  }

  lemma {:induction false} AuthorIsFrom(j: Json)
    ensures AuthorFrom(j, C.NormalizeAuthor(j))
  {
    hide ToNonEmptyString, HasText, TextOf, TextFrom;
    HasTextMatches(j);
    if ToNonEmptyString(j).None? && j.Obj? {
      var f := j.fields;
      TextIsFrom(f, Key.Name);
      var name, kind := OfText(ToNonEmptyString(Get(f, Key.Name))), C.AuthorType(f);
      assert AuthorTypeFrom(f, kind);
      assert Compact(map[Key.Name := name, Key.TypeKey := kind]) == WithoutUndef(name, kind);
    }
  }

  lemma {:induction false} AuthorIsRead(value: Json)
    ensures AuthorFrom(Get(FieldsOf(value), Key.Author), Get(Output(value), Key.Author))
  {
    hide C.NormalizeCanonicalRecipe, Output, AuthorFrom, C.NormalizeAuthor, ParseObject, C.IsAuthor;
    var j := Get(FieldsOf(value), Key.Author);
    OutputIs(value, Key.Author);
    AuthorIsFrom(j);
    C.AuthorIsAuthor(j);
    if C.IsAuthor(C.NormalizeAuthor(j)) { C.AuthorIsFixed(C.NormalizeAuthor(j)); }
  }

  lemma {:induction false} NutritionIsRead(value: Json)
    ensures NutritionFrom(NUTRIENTS, Get(FieldsOf(value), Key.Nutrition), Get(Output(value), Key.Nutrition))
  {
    hide C.NormalizeCanonicalRecipe, Output, NutritionFrom, NormalizeNutrition, ParseObject, IsNutrition;
    var j := Get(FieldsOf(value), Key.Nutrition);
    OutputIs(value, Key.Nutrition);
    NutritionIsFrom(j);
    NutritionResult(j);
    if IsNutrition(NormalizeNutrition(j)) { NutritionIsAccepted(NormalizeNutrition(j), TrimmedText); }
  }

  // ---------------------------------------------------------------- entries

  const NAMES: seq<Key> := [Key.Name, Key.Ingredient, Key.Line, Key.TextKey, Key.Raw]

  const RAWS: seq<Key> := [Key.Raw, Key.Line, Key.TextKey, Key.Ingredient]

  lemma {:induction false} OrderIsRead(entry: Fields, position: nat)
    ensures OrderFrom(FirstGiven(entry, Key.Order, Key.Index), position, C.OrderOf(entry, position))
  {
    CoalesceIsFirstGiven(entry, Key.Order, Key.Index);
    OrderIsFrom(FirstGiven(entry, Key.Order, Key.Index), position);
    hide ToFiniteNumber, RoundedFrom0;
  }

  /** The raw text of the last resort is that of the property itself, when the other sources have none. */
  lemma {:induction false} NameIsFrom(entry: Fields)
    ensures TextFrom(entry, NAMES, OfText(C.IngredientName(entry)))
    ensures TextFrom(entry, RAWS, OfText(C.IngredientRaw(entry)))
  {
    FirstTextIsFrom(entry, NAMES);
    FirstTextIsFrom(entry, RAWS);
    assert Values(entry, RAWS) ==
      [Get(entry, Key.Raw), Get(entry, Key.Line), Get(entry, Key.TextKey), Get(entry, Key.Ingredient)];
    hide TextFrom;
    NameSources(entry);
  }

  lemma {:induction false} NameSources(entry: Fields)
    ensures C.IngredientName(entry) == FirstText(Values(entry, NAMES))
  {
    var names := [Get(entry, Key.Name), Get(entry, Key.Ingredient), Get(entry, Key.Line), Get(entry, Key.TextKey)];
    var raw := C.IngredientRaw(entry);
    assert Values(entry, NAMES) == names + [Get(entry, Key.Raw)];
    FirstOfMore(names, Get(entry, Key.Raw));
    FirstOfMore(names, OfText(raw));
    assert names + [OfText(raw)] == [Get(entry, Key.Name), Get(entry, Key.Ingredient), Get(entry, Key.Line),
      Get(entry, Key.TextKey), OfText(raw)];
    if FirstText(names).None? { OnlyRawIsLeft(entry); }
  }

  lemma {:induction false} FirstOfMore(candidates: seq<Json>, last: Json)
    ensures FirstText(candidates + [last]) ==
      if FirstText(candidates).Some? then FirstText(candidates) else ToNonEmptyString(last)
  {
    hide ToNonEmptyString;
    if candidates == [] {
      assert [last][1..] == [];
    } else {
      FirstOfMore(candidates[1..], last);
      assert (candidates + [last])[1..] == candidates[1..] + [last];
    }
  }

  lemma {:induction false} OnlyRawIsLeft(entry: Fields)
    requires FirstText([Get(entry, Key.Name), Get(entry, Key.Ingredient), Get(entry, Key.Line),
      Get(entry, Key.TextKey)]).None?
    ensures ToNonEmptyString(OfText(C.IngredientRaw(entry))) == ToNonEmptyString(Get(entry, Key.Raw))
  {
    hide ToNonEmptyString;
    var raws := [Get(entry, Key.Raw), Get(entry, Key.Line), Get(entry, Key.TextKey), Get(entry, Key.Ingredient)];
    var names := [Get(entry, Key.Name), Get(entry, Key.Ingredient), Get(entry, Key.Line), Get(entry, Key.TextKey)];
    FirstTextPicksEarliest(names);
    FirstTextPicksEarliest(raws);
    assert ToNonEmptyString(names[1]).None? && ToNonEmptyString(names[2]).None? && ToNonEmptyString(names[3]).None?;
    NonEmptyStringIsClean(Get(entry, Key.Raw));
    NonEmptyStringIsClean(OfText(FirstText(raws)));
    NotText(Undef);
  }

  lemma {:induction false} RecordIsFrom(entry: Fields, position: nat)
    requires C.IngredientName(entry).Some?
    ensures IngredientFrom(NAMES, RAWS, entry, position, C.IngredientRecord(entry, position))
  {
    hide C.IngredientName, C.IngredientRaw, C.OrderOf, ToNonEmptyString, ToFiniteNumber,
      TextFrom, NumberFrom, OrderFrom,
      Coalesce, FirstGiven;
    NameIsFrom(entry);
    OrderIsRead(entry, position);
    OrderIsNumber(entry, position);
    CoalesceIsFirstGiven(entry, Key.Quantity, Key.Amount);
    NumberIsFrom(FirstGiven(entry, Key.Quantity, Key.Amount));
    TextIsFrom(entry, Key.Unit);
    TextIsFrom(entry, Key.Note);
  }

  lemma {:induction false} OrderIsNumber(entry: Fields, position: nat)
    ensures C.OrderOf(entry, position).Num?
  {
  }

  /** A line of text names the ingredient and is kept. */
  function PlainIngredient(t: string, position: nat): Json {
    Obj(map[Key.Name := Str(t), Key.Order := Num(position as real), Key.Raw := Str(t)])
  }

  function PlainInstruction(t: string, position: nat): Json {
    Obj(map[Key.TextKey := Str(t), Key.Order := Num(position as real)])
  }

  /** An entry is an ingredient exactly when it is text, or a record in which one of five properties is. */
  lemma {:induction false} IngredientExactly(entry: Json, position: nat)
    ensures
      var r := C.IngredientEntry(entry, position);
      && (r == [] <==> !HasText(entry) && (entry.Obj? ==> TextFrom(entry.fields, NAMES, Undef)))
      && (HasText(entry) ==> exists t :: TextOf(entry, t) && r == [PlainIngredient(t, position)])
      && (r != [] && !HasText(entry) ==>
            |r| == 1 && r[0].Obj? && IngredientFrom(NAMES, RAWS, entry.fields, position, r[0].fields))
  {
    hide ToNonEmptyString, HasText, TextOf, C.IngredientName, C.IngredientRecord, IngredientFrom;
    HasTextMatches(entry);
    var plain := ToNonEmptyString(entry);
    assert plain.Some? ==> TextOf(entry, plain.value);
    NotText(entry);
    if entry.Obj? {
      NameIsFrom(entry.fields);
      var name := C.IngredientName(entry.fields);
      if name.Some? {
        SomeTextSomewhere(entry.fields, NAMES, name.value);
        RecordIsFrom(entry.fields, position);
      }
    }
  }

  /** What an instruction record says about the record it was read from. */
  ghost predicate InstructionFrom(entry: Fields, position: nat, f: Fields) {
    && f.Keys <= {Key.TextKey, Key.Order, Key.DurationMin} && NoUndef(f)
    && TextFrom(entry, [Key.TextKey, Key.Name], Get(f, Key.TextKey))
    && WholeFrom(FirstGiven(entry, Key.DurationMin, Key.Duration), Get(f, Key.DurationMin))
    && OrderFrom(FirstGiven(entry, Key.Order, Key.Index), position, Get(f, Key.Order))
  }

  lemma {:induction false} DurationIsRead(entry: Fields)
    ensures WholeFrom(FirstGiven(entry, Key.DurationMin, Key.Duration), C.InstructionDuration(entry))
  {
    CoalesceIsFirstGiven(entry, Key.DurationMin, Key.Duration);
    WholeIsFrom(FirstGiven(entry, Key.DurationMin, Key.Duration));
    hide ToFiniteNumber, RoundedFrom0;
  }

  lemma {:induction false} InstructionTextIsFrom(entry: Fields)
    ensures TextFrom(entry, [Key.TextKey, Key.Name], OfText(C.InstructionText(entry)))
  {
    FirstTextIsFrom(entry, [Key.TextKey, Key.Name]);
    assert Values(entry, [Key.TextKey, Key.Name]) == [Get(entry, Key.TextKey), Get(entry, Key.Name)];
  }

  lemma {:induction false} InstructionRecordIsFrom(entry: Fields, position: nat)
    requires C.InstructionText(entry).Some?
    ensures InstructionFrom(entry, position, C.InstructionRecord(entry, position))
  {
    hide C.InstructionText, C.InstructionDuration, C.OrderOf, TextFrom, WholeFrom, OrderFrom, FirstGiven;
    InstructionTextIsFrom(entry);
    DurationIsRead(entry);
    OrderIsRead(entry, position);
    OrderIsNumber(entry, position);
  }

  /** An entry is an instruction exactly when it is text, or a record whose text or name is. */
  lemma {:induction false} InstructionExactly(entry: Json, position: nat)
    ensures
      var r := C.InstructionEntry(entry, position);
      && (r == [] <==> !HasText(entry) && (entry.Obj? ==> TextFrom(entry.fields, [Key.TextKey, Key.Name], Undef)))
      && (HasText(entry) ==> exists t :: TextOf(entry, t) && r == [PlainInstruction(t, position)])
      && (r != [] && !HasText(entry) ==>
            |r| == 1 && r[0].Obj? && InstructionFrom(entry.fields, position, r[0].fields))
  {
    hide ToNonEmptyString, HasText, TextOf, C.InstructionText, C.InstructionRecord, InstructionFrom;
    HasTextMatches(entry);
    var plain := ToNonEmptyString(entry);
    assert plain.Some? ==> TextOf(entry, plain.value);
    NotText(entry);
    if entry.Obj? {
      InstructionTextIsFrom(entry.fields);
      var text := C.InstructionText(entry.fields);
      if text.Some? {
        SomeTextSomewhere(entry.fields, [Key.TextKey, Key.Name], text.value);
        InstructionRecordIsFrom(entry.fields, position);
      }
    }
  }
}
