/**
 * Where every property of a JSON-LD recipe comes from, and every property of its entries: relations between the
 * input and the output that do not mention how the output is computed.
 */
module JsonLdReadings {
  import opened Text
  import opened Json
  import opened Numbers
  import opened NumberGrammar
  import opened Durations
  import opened IngredientLines
  import opened Lists
  import opened ListEntries
  import opened Schemas
  import opened RecipeParts
  import opened Readings
  import opened RecipeSources
  import J = RecipeJsonLd

  function Output(value: Json): Fields {
    var out := J.NormalizeRecipeJsonLd(value);
    if out.Obj? then out.fields else map[]
  }

  lemma {:induction false} OutputIs(value: Json, k: Key)
    requires k in J.OUTPUT
    ensures J.NormalizeRecipeJsonLd(value) == Obj(Output(value))
    ensures Get(Output(value), k) == J.OutputValue(k, FieldsOf(value))
  {
    hide J.NormalizeRecipeJsonLd, J.OutputValue, J.OUTPUT;
    JsonLdOutput(value, k);
  }

  /** The properties that are copied from the one of the same name. */
  predicate Plain(k: Key) {
    && k in J.OUTPUT
    && k !in {Key.Instructions, Key.Ingredients, Key.Servings, Key.YieldUnitLabel, Key.PrepTimeMin, Key.CookTimeMin,
              Key.TotalTimeMin}
  }

  const PLAIN_KEYS: set<Key> := {
    Key.AtType, Key.RecipeYield, Key.Difficulty, Key.Budget, Key.Categories, Key.Attributes, Key.RecipeIngredient,
    Key.Image, Key.Author, Key.Nutrition, Key.AggregateRating}

  lemma {:induction false} PlainKeys()
    ensures forall k :: k in PLAIN_KEYS ==> Plain(k) && k !in J.TEXT_KEYS
    ensures forall k :: k in J.TEXT_KEYS && k != Key.YieldUnitLabel ==> Plain(k)
  {
  }

  const DERIVED_KEYS: set<Key> := {
    Key.Instructions, Key.Ingredients, Key.Servings, Key.PrepTimeMin, Key.CookTimeMin, Key.TotalTimeMin}

  lemma {:induction false} DerivedKeys()
    ensures forall k :: k in DERIVED_KEYS ==> k in J.OUTPUT && k !in J.TEXT_KEYS
    ensures Key.YieldUnitLabel in J.OUTPUT && Key.YieldUnitLabel in J.TEXT_KEYS
    ensures Key.RecipeInstructions !in J.TEXT_KEYS
  {
  }

  lemma {:induction false} PlainIs(value: Json, k: Key)
    requires Plain(k)
    ensures J.NormalizeRecipeJsonLd(value) == Obj(Output(value))
    ensures Get(Output(value), k) == J.FieldValue(k, FieldsOf(value))
  {
    hide J.NormalizeRecipeJsonLd, J.FieldValue, J.OUTPUT, Output;
    OutputIs(value, k);
  }

  // ---------------------------------------------------------------- texts, type and yield

  lemma {:induction false} TextField(k: Key, src: Fields)
    requires k in J.TEXT_KEYS
    ensures J.FieldValue(k, src) == OfText(ToNonEmptyString(Get(src, k)))
  {
    hide ToNonEmptyString;
  }

  lemma {:induction false} TextsAreRead(value: Json, k: Key)
    requires k in J.TEXT_KEYS && k != Key.YieldUnitLabel
    ensures TextFrom(FieldsOf(value), [k], Get(Output(value), k))
  {
    PlainKeys();
    hide J.TEXT_KEYS, J.OUTPUT, Output, TextFrom, ToNonEmptyString, J.FieldValue, Plain;
    PlainIs(value, k);
    TextField(k, FieldsOf(value));
    TextIsFrom(FieldsOf(value), k);
  }

  /** The type is "Recipe" when that is given, alone or in a list. */
  predicate TypeFrom(j: Json, v: Json) {
    v == if j == Str("Recipe") || (j.Arr? && exists i :: 0 <= i < |j.items| && j.items[i] == Str("Recipe"))
         then Str("Recipe") else Undef
  }

  lemma {:induction false} TypeIsRead(value: Json)
    ensures TypeFrom(Get(FieldsOf(value), Key.AtType), Get(Output(value), Key.AtType))
  {
    PlainKeys();
    hide Output, Plain, J.TEXT_KEYS, J.OUTPUT, J.FieldValue, TypeFrom;
    PlainIs(value, Key.AtType);
    TypeField(FieldsOf(value));
  }

  lemma {:induction false} TypeField(src: Fields)
    ensures TypeFrom(Get(src, Key.AtType), J.FieldValue(Key.AtType, src))
  {
    PlainKeys();
    hide Plain, J.TEXT_KEYS, J.OUTPUT, ParseRule, ParseList, ParseOptionalObject;
  }

  /** A yield is kept as a number or as text. */
  ghost predicate YieldFrom(src: Fields, v: Json) {
    var given := Get(src, Key.RecipeYield);
    if given.Num? then v == given else TextFrom(src, [Key.RecipeYield], v)
  }

  lemma {:induction false} YieldIsRead(value: Json)
    ensures YieldFrom(FieldsOf(value), Get(Output(value), Key.RecipeYield))
  {
    PlainKeys();
    hide Output, ToNonEmptyString, TextFrom, Plain, J.TEXT_KEYS, J.OUTPUT, J.FieldValue;
    PlainIs(value, Key.RecipeYield);
    YieldField(FieldsOf(value));
    TextIsFrom(FieldsOf(value), Key.RecipeYield);
  }

  lemma {:induction false} YieldField(src: Fields)
    ensures J.FieldValue(Key.RecipeYield, src) ==
      if Get(src, Key.RecipeYield).Num? then Get(src, Key.RecipeYield)
      else OfText(ToNonEmptyString(Get(src, Key.RecipeYield)))
  {
    PlainKeys();
    hide Plain, J.TEXT_KEYS, J.OUTPUT, ParseRule, ParseList, ParseOptionalObject, ToNonEmptyString;
  }

  // ---------------------------------------------------------------- servings and label

  /** A text that starts with a decimal number, alone or with white space and a label of one line. */
  ghost predicate YieldForm(s: string, number: string, rest: Option<string>) {
    && DecimalText(number)
    && (rest.None? ==> s == number)
    && (rest.Some? ==>
          && CleanText(rest.value) && J.OneLine(rest.value)
          && exists gap :: gap != "" && AllSpace(gap) && s == number + gap + rest.value)
  }

  lemma {:induction false} DecimalStarts(number: string)
    requires DecimalText(number)
    ensures number != "" && !IsSpace(number[0])
  {
    if i :| PointAt(number, i) { assert number[..i][0] == number[0]; }
  }

  lemma {:induction false} YieldMatchesForm(s: string, number: string, rest: Option<string>)
    requires CleanText(s)
    ensures J.MatchLeadingYield(s) == Some((number, rest)) <==> YieldForm(s, number, rest)
  {
    hide DecimalText, DecimalRun, J.MatchLeadingYield;
    if J.MatchLeadingYield(s) == Some((number, rest)) { YieldMatchIsForm(s, number, rest); }
    if YieldForm(s, number, rest) {
      DecimalStarts(number);
      if rest.Some? {
        var gap :| gap != "" && AllSpace(gap) && s == number + gap + rest.value;
        LeadingYield(number, gap, rest.value);
      } else {
        OnlyNumber(number);
      }
    }
  }

  lemma {:induction false} OnlyNumber(number: string)
    requires DecimalText(number)
    ensures J.MatchLeadingYield(number) == Some((number, None))
  {
    hide DecimalText, DecimalRun;
    DecimalStarts(number);
    DecimalRunIs(number, "");
    assert number + "" == number;
  }

  lemma {:induction false} YieldMatchIsForm(s: string, number: string, rest: Option<string>)
    requires CleanText(s) && J.MatchLeadingYield(s) == Some((number, rest))
    ensures YieldForm(s, number, rest)
  {
    hide DecimalText, DecimalRun, TrimStart, J.OneLine;
    var n := DecimalRun(s);
    DecimalRunSound(s);
    var rest := s[n..];
    var gap, r := SplitStart(rest);
    assert s == number + rest;
    if rest != "" {
      EndIsNoSpace(s, number, gap, r);
      assert rest == gap + r;
      assert s == number + gap + r;
    }
  }

  lemma {:induction false} EndIsNoSpace(s: string, number: string, gap: string, r: string)
    requires CleanText(s) && s == number + (gap + r) && gap + r != "" && AllSpace(gap)
    requires r != "" ==> !IsSpace(r[0])
    ensures r != "" && CleanText(r)
  {
    if r == "" {
      EndsInSpace(s, number, gap, r);
    } else {
      assert s[|s| - 1] == r[|r| - 1];
    }
  }

  lemma {:induction false} EndsInSpace(s: string, number: string, gap: string, r: string)
    requires s == number + (gap + r) && r == "" && gap != "" && AllSpace(gap)
    ensures s != "" && IsSpace(s[|s| - 1])
  {
    assert s[|s| - 1] == gap[|gap| - 1];
  }

  /** Servings are the given ones, and else those that the yield starts with. */
  ghost predicate ServingsAre(given: Json, recipeYield: Json, v: Json) {
    if exists n :: RoundedFrom1(given, n) then PositiveFrom(given, v) else YieldServings(recipeYield, v)
  }

  ghost predicate HasYieldForm(s: string) { exists number, rest :: YieldForm(s, number, rest) }

  ghost predicate YieldServings(recipeYield: Json, v: Json) {
    if !recipeYield.Str? then PositiveFrom(recipeYield, v)
    else if HasYieldForm(recipeYield.text) then
      exists number, rest :: YieldForm(recipeYield.text, number, rest) && PositiveFrom(Str(number), v)
    else v == Undef
  }

  lemma {:induction false} DerivedServings(recipeYield: Json)
    requires recipeYield.Num? || recipeYield == Undef || IsCleanStr(recipeYield)
    ensures YieldServings(recipeYield, J.DeriveServings(recipeYield))
  {
    hide J.MatchLeadingYield, YieldForm, PositiveFrom, RoundedPositive;
    if recipeYield.Str? {
      forall number, rest
        ensures J.MatchLeadingYield(recipeYield.text) == Some((number, rest))
          <==> YieldForm(recipeYield.text, number, rest)
      {
        YieldMatchesForm(recipeYield.text, number, rest);
      }
      var m := J.MatchLeadingYield(recipeYield.text);
      if m.Some? {
        PositiveIsFrom(Str(m.value.0));
        assert YieldForm(recipeYield.text, m.value.0, m.value.1);
      }
    } else {
      PositiveIsFrom(recipeYield);
      UndefHasNoNumber();
    }
  }

  lemma {:induction false} YieldIsClean(value: Json)
    ensures var y := Get(Output(value), Key.RecipeYield); y.Num? || y == Undef || IsCleanStr(y)
    ensures Get(Output(value), Key.RecipeYield) == J.FieldValue(Key.RecipeYield, FieldsOf(value))
  {
    PlainKeys();
    hide Output, ToNonEmptyString, IsCleanStr, Plain, J.TEXT_KEYS, J.OUTPUT, J.FieldValue;
    PlainIs(value, Key.RecipeYield);
    YieldField(FieldsOf(value));
    CleanStrings(FieldsOf(value), Key.RecipeYield);
  }

  lemma {:induction false} ServingsAreRead(value: Json)
    ensures ServingsAre(Get(FieldsOf(value), Key.Servings), Get(Output(value), Key.RecipeYield),
      Get(Output(value), Key.Servings))
  {
    DerivedKeys();
    hide Output, J.NormalizeRecipeJsonLd, J.DeriveServings, YieldServings, RoundedPositive, RoundedFrom1, IsCleanStr,
      J.TEXT_KEYS, J.OUTPUT, J.FieldValue;
    var given := Get(FieldsOf(value), Key.Servings);
    OutputIs(value, Key.Servings);
    YieldIsClean(value);
    ServingsField(FieldsOf(value));
    PositiveIsFrom(given);
    SomePositive(given);
    DerivedServings(Get(Output(value), Key.RecipeYield));
    YieldOutputs(FieldsOf(value));
    hide PositiveFrom;
  }

  lemma {:induction false} SomePositive(j: Json)
    ensures (exists n :: RoundedFrom1(j, n)) <==> RoundedPositive(j).Some?
  {
    PositiveIsFrom(j);
    hide RoundedPositive, ReadsNumber, NearestFrom1;
  }

  lemma {:induction false} ServingsField(src: Fields)
    ensures J.FieldValue(Key.Servings, src) == OfInt(RoundedPositive(Get(src, Key.Servings)))
  {
    DerivedKeys();
    hide RoundedPositive, J.TEXT_KEYS, J.OUTPUT, ParseList, ParseOptionalObject;
    IntegersAreInRange(Get(src, Key.Servings));
  }

  /** The rest is the given one, and else the one of the yield, or all of it. */
  ghost predicate LabelIs(given: Json, recipeYield: Json, v: Json) {
    if HasText(given) then v.Str? && TextOf(given, v.text)
    else if !recipeYield.Str? then v == Undef
    else if exists number, rest :: YieldForm(recipeYield.text, number, Some(rest))
    then v.Str? && exists number :: YieldForm(recipeYield.text, number, Some(v.text))
    else v == recipeYield
  }

  lemma {:induction false} LabelIsRead(value: Json)
    ensures LabelIs(Get(FieldsOf(value), Key.YieldUnitLabel), Get(Output(value), Key.RecipeYield),
      Get(Output(value), Key.YieldUnitLabel))
  {
    DerivedKeys();
    hide Output, J.NormalizeRecipeJsonLd, J.DeriveYieldLabel, YieldForm, ToNonEmptyString, HasText, TextOf, IsCleanStr,
      J.TEXT_KEYS, J.OUTPUT, J.FieldValue, LabelIs;
    var src := FieldsOf(value);
    OutputIs(value, Key.YieldUnitLabel);
    YieldIsClean(value);
    YieldOutputs(src);
    TextField(Key.YieldUnitLabel, src);
    DerivedLabel(Get(src, Key.YieldUnitLabel), Get(Output(value), Key.RecipeYield));
  }

  lemma {:induction false} DerivedLabel(given: Json, recipeYield: Json)
    requires recipeYield.Num? || recipeYield == Undef || IsCleanStr(recipeYield)
    ensures LabelIs(given, recipeYield, J.DeriveYieldLabel(OfText(ToNonEmptyString(given)), recipeYield))
  {
    hide J.MatchLeadingYield, YieldForm, ToNonEmptyString, HasText, TextOf;
    HasTextMatches(given);
    TextIsTrue(given);
    if ToNonEmptyString(given).None? && recipeYield.Str? {
      forall number, rest
        ensures J.MatchLeadingYield(recipeYield.text) == Some((number, rest))
          <==> YieldForm(recipeYield.text, number, rest)
      {
        YieldMatchesForm(recipeYield.text, number, rest);
      }
      var m := J.MatchLeadingYield(recipeYield.text);
      if m.Some? {
        assert YieldForm(recipeYield.text, m.value.0, m.value.1);
        if m.value.1.Some? { LabelStays(recipeYield.text, m.value.0, m.value.1.value); }
      }
    }
  }

  lemma {:induction false} TextIsTrue(given: Json)
    ensures ToNonEmptyString(given).Some? <==> Truthy(OfText(ToNonEmptyString(given)))
  {
  }

  lemma {:induction false} LabelStays(s: string, number: string, rest: string)
    requires YieldForm(s, number, Some(rest))
    ensures ToNonEmptyString(Str(rest)) == Some(rest)
  {
    assert IsCleanStr(Str(rest));
    NonEmptyStringIsClean(Str(rest));
  }

  // ---------------------------------------------------------------- times

  /** Minutes as the recipe gives them: an explicit number, and else the duration text. */
  ghost predicate TimeGiven(minutes: Json, text: Json, n: Option<int>) {
    if exists x :: RoundedFrom0(minutes, x) then n.Some? && RoundedFrom0(minutes, n.value)
    else if n.Some? then MinutesOf(text, n.value) else forall x :: !MinutesOf(text, x)
  }

  lemma {:induction false} TimeIsGiven(src: Fields, minutesKey: Key, textKey: Key)
    ensures TimeGiven(Get(src, minutesKey), J.FieldValue(textKey, src), GivenMinutes(src, minutesKey, textKey))
  {
    hide ToNonNegativeInteger, NormalizeMinutes, RoundedFrom0, MinutesOf, J.FieldValue;
    ExplicitTime(Get(src, minutesKey));
    TextTime(J.FieldValue(textKey, src));
  }

  lemma {:induction false} ExplicitTime(minutes: Json)
    ensures ToNonNegativeInteger(minutes).Some? <==> exists x :: RoundedFrom0(minutes, x)
    ensures ToNonNegativeInteger(minutes).Some? ==> RoundedFrom0(minutes, ToNonNegativeInteger(minutes).value)
  {
    hide ToNonNegativeInteger, RoundedFrom0;
    forall n ensures ToNonNegativeInteger(minutes) == Some(n) <==> RoundedFrom0(minutes, n) {
      NonNegativeIntegerMatches(minutes, n);
    }
    var explicit := ToNonNegativeInteger(minutes);
    assert explicit.Some? ==> RoundedFrom0(minutes, explicit.value);
  }

  lemma {:induction false} TextTime(text: Json)
    ensures NormalizeMinutes(text).None? ==> forall x :: !MinutesOf(text, x)
    ensures NormalizeMinutes(text).Some? ==> MinutesOf(text, NormalizeMinutes(text).value)
  {
    hide NormalizeMinutes, MinutesOf;
    forall n ensures NormalizeMinutes(text) == Some(n) <==> MinutesOf(text, n) {
      MinutesExactly(text, n);
    }
    var read := NormalizeMinutes(text);
    assert read.Some? ==> MinutesOf(text, read.value);
  }

  /** The three times: a total that is not given is the sum of the other two, a missing one counting as zero. */
  ghost predicate TimesAre(src: Fields, out: Fields, prep: Option<int>, cook: Option<int>, total: Option<int>) {
    && TimeGiven(Get(src, Key.PrepTimeMin), Get(out, Key.PrepTime), prep)
    && TimeGiven(Get(src, Key.CookTimeMin), Get(out, Key.CookTime), cook)
    && TimeGiven(Get(src, Key.TotalTimeMin), Get(out, Key.TotalTime), total)
    && Get(out, Key.PrepTimeMin) == OfInt(prep) && Get(out, Key.CookTimeMin) == OfInt(cook)
    && Get(out, Key.TotalTimeMin) ==
         if total.Some? then Num(total.value as real)
         else if prep.None? && cook.None? then Undef
         else Num(((if prep.Some? then prep.value else 0) + (if cook.Some? then cook.value else 0)) as real)
  }

  lemma {:induction false} TimesAddUp(value: Json) returns (prep: Option<int>, cook: Option<int>, total: Option<int>)
    ensures TimesAre(FieldsOf(value), Output(value), prep, cook, total)
  {
    TimeTexts();
    hide J.NormalizeRecipeJsonLd, GivenMinutes, TimeGiven, J.FieldValue, J.OUTPUT;
    var src := FieldsOf(value);
    prep := GivenMinutes(src, Key.PrepTimeMin, Key.PrepTime);
    cook := GivenMinutes(src, Key.CookTimeMin, Key.CookTime);
    total := GivenMinutes(src, Key.TotalTimeMin, Key.TotalTime);
    TimeIsGiven(src, Key.PrepTimeMin, Key.PrepTime);
    TimeIsGiven(src, Key.CookTimeMin, Key.CookTime);
    TimeIsGiven(src, Key.TotalTimeMin, Key.TotalTime);
    PlainKeys();
    hide Plain, J.TEXT_KEYS;
    PlainIs(value, Key.PrepTime);
    PlainIs(value, Key.CookTime);
    PlainIs(value, Key.TotalTime);
    RecipeSources.TimesAddUp(value);
  }

  lemma {:induction false} TimeTexts()
    ensures {Key.PrepTime, Key.CookTime, Key.TotalTime} <= J.TEXT_KEYS
  {
  }

  // ---------------------------------------------------------------- keys and lists

  lemma {:induction false} KeysAreRead(value: Json)
    ensures KeyFrom(DIFFICULTIES, Get(FieldsOf(value), Key.Difficulty), Get(Output(value), Key.Difficulty))
    ensures KeyFrom(BUDGETS, Get(FieldsOf(value), Key.Budget), Get(Output(value), Key.Budget))
  {
    PlainKeys();
    hide Plain, J.TEXT_KEYS, J.OUTPUT, J.NormalizeRecipeJsonLd, Output,
      KeyFrom, NormalizeEnumValue, EnumText;
    PlainIs(value, Key.Difficulty);
    PlainIs(value, Key.Budget);
    KeyIsFrom(DIFFICULTIES, Get(FieldsOf(value), Key.Difficulty));
    KeyIsFrom(BUDGETS, Get(FieldsOf(value), Key.Budget));
    EnumerationsAreEnumText();
    EnumResult(DIFFICULTIES, Get(FieldsOf(value), Key.Difficulty));
    EnumResult(BUDGETS, Get(FieldsOf(value), Key.Budget));
  }

  lemma {:induction false} KeyListsAreRead(value: Json)
    ensures ListFrom(
      KeysOf(RECIPE_CATEGORIES, Get(FieldsOf(value), Key.Categories)), Get(Output(value), Key.Categories))
    ensures ListFrom(
      KeysOf(RECIPE_ATTRIBUTES, Get(FieldsOf(value), Key.Attributes)), Get(Output(value), Key.Attributes))
  {
    PlainKeys();
    hide Plain, J.TEXT_KEYS, J.OUTPUT, J.NormalizeRecipeJsonLd, Output,
      ListFrom, NormalizeEnumValues, KeysOf, EnumText, EnumList;
    PlainIs(value, Key.Categories);
    PlainIs(value, Key.Attributes);
    EnumerationsAreEnumText(); CategoriesAreEnumText();
    KeysResult(RECIPE_CATEGORIES, Get(FieldsOf(value), Key.Categories));
    KeysResult(RECIPE_ATTRIBUTES, Get(FieldsOf(value), Key.Attributes));
    KeysAreFrom(RECIPE_CATEGORIES, Get(FieldsOf(value), Key.Categories));
    KeysAreFrom(RECIPE_ATTRIBUTES, Get(FieldsOf(value), Key.Attributes));
  }

  lemma {:induction false} TextListsAreRead(value: Json)
    ensures ListFrom(EntriesOfArray(Get(FieldsOf(value), Key.RecipeIngredient)),
      Get(Output(value), Key.RecipeIngredient))
    ensures ImageFrom(Get(FieldsOf(value), Key.Image), Get(Output(value), Key.Image))
  {
    PlainKeys();
    hide Plain, J.TEXT_KEYS, J.OUTPUT, J.NormalizeRecipeJsonLd, Output,
      ListFrom, EntriesOfArray, ImageFrom, NormalizeStringArray, ToNonEmptyString;
    var src := FieldsOf(value);
    PlainIs(value, Key.RecipeIngredient);
    PlainIs(value, Key.Image);
    ArrayIsFrom(Get(src, Key.RecipeIngredient));
    ImageIsFrom(Get(src, Key.Image));
    TextsRoundTrip(NormalizeStringArray(Get(src, Key.RecipeIngredient)));
    TextsRoundTrip(NormalizeStringArray(Get(src, Key.Image)));
  }

  // ---------------------------------------------------------------- author, nutrition, rating

  /** An author is a name, or a record with a name, a type, or both. */
  ghost predicate AuthorFrom(j: Json, v: Json) {
    if HasText(j) then exists t :: TextOf(j, t) && v == Obj(map[Key.Name := Str(t)])
    else if !j.Obj? then v == Undef
    else
      var given := Get(j.fields, Key.AtType);
      var kind := if given in {Str("Person"), Str("Organization")} then given else Undef;
      exists name ::
        && TextFrom(j.fields, [Key.Name], name)
        && if name == Undef && kind == Undef then v == Undef else v == Obj(Both(Key.Name, name, Key.AtType, kind))
  }

  /** A record of at most two properties. */
  function Both(a: Key, x: Json, b: Key, y: Json): Fields {
    (if x == Undef then map[] else map[a := x]) + (if y == Undef then map[] else map[b := y])
  }

  lemma {:induction false} AuthorIsFrom(j: Json)
    ensures AuthorFrom(j, J.NormalizeAuthor(j))
  {
    hide ToNonEmptyString, HasText, TextOf, TextFrom;
    HasTextMatches(j);
    if ToNonEmptyString(j).None? && j.Obj? {
      var f := j.fields;
      TextIsFrom(f, Key.Name);
      var name, kind := OfText(ToNonEmptyString(Get(f, Key.Name))), J.AuthorType(f);
      assert TextFrom(f, [Key.Name], name);
      assert Compact(map[Key.AtType := kind, Key.Name := name]) == Both(Key.Name, name, Key.AtType, kind);
    } else {
      var plain := ToNonEmptyString(j);
      assert plain.Some? ==> TextOf(j, plain.value);
    }
  }

  lemma {:induction false} AuthorIsRead(value: Json)
    ensures AuthorFrom(Get(FieldsOf(value), Key.Author), Get(Output(value), Key.Author))
  {
    PlainKeys();
    hide Plain, J.TEXT_KEYS, J.OUTPUT, J.NormalizeRecipeJsonLd, Output,
      AuthorFrom, J.NormalizeAuthor, J.ParseField, ParseObject, J.IsAuthor;
    var j := Get(FieldsOf(value), Key.Author);
    PlainIs(value, Key.Author);
    AuthorIsFrom(j);
    J.AuthorField(j);
    J.AuthorIsAuthor(j);
    if J.IsAuthor(J.NormalizeAuthor(j)) { J.AuthorIsFixed(J.NormalizeAuthor(j)); }
  }

  lemma {:induction false} NutritionIsRead(value: Json)
    ensures NutritionFrom(NUTRIENTS, Get(FieldsOf(value), Key.Nutrition), Get(Output(value), Key.Nutrition))
  {
    PlainKeys();
    hide Plain, J.TEXT_KEYS, J.OUTPUT, J.NormalizeRecipeJsonLd, Output,
      NutritionFrom, NormalizeNutrition, J.ParseField, ParseObject, IsNutrition;
    var j := Get(FieldsOf(value), Key.Nutrition);
    PlainIs(value, Key.Nutrition);
    NutritionIsFrom(j);
    J.NutritionField(j);
    NutritionResult(j);
    if IsNutrition(NormalizeNutrition(j)) { NutritionIsAccepted(NormalizeNutrition(j), OptionalText); }
  }

  /** A rating is a record of at most two numbers, and at least one. */
  predicate RatingFrom(j: Json, v: Json) {
    var rating := if j.Obj? && Get(j.fields, Key.RatingValue).Num? then Get(j.fields, Key.RatingValue) else Undef;
    var count := if j.Obj? && Get(j.fields, Key.ReviewCount).Num? then Get(j.fields, Key.ReviewCount) else Undef;
    v == if rating == Undef && count == Undef then Undef
         else Obj(Both(Key.RatingValue, rating, Key.ReviewCount, count))
  }

  lemma {:induction false} RatingIsFrom(j: Json)
    ensures RatingFrom(j, J.NormalizeRating(j))
  {
    if j.Obj? {
      var rating := J.NumberOnly(Get(j.fields, Key.RatingValue));
      var count := J.NumberOnly(Get(j.fields, Key.ReviewCount));
      assert Compact(map[Key.RatingValue := rating, Key.ReviewCount := count])
        == Both(Key.RatingValue, rating, Key.ReviewCount, count);
    }
  }

  lemma {:induction false} RatingIsRead(value: Json)
    ensures RatingFrom(Get(FieldsOf(value), Key.AggregateRating), Get(Output(value), Key.AggregateRating))
  {
    PlainKeys();
    hide Plain, J.TEXT_KEYS, J.OUTPUT, J.NormalizeRecipeJsonLd, Output,
      RatingFrom, J.NormalizeRating, J.ParseField, J.IsRating;
    var j := Get(FieldsOf(value), Key.AggregateRating);
    PlainIs(value, Key.AggregateRating);
    RatingIsFrom(j);
    J.RatingField(j);
    J.RatingResult(j);
    J.RatingResult(J.NormalizeRating(j));
  }

  // ---------------------------------------------------------------- ingredients and instructions

  lemma {:induction false} EntriesAreSingle()
    ensures forall j, p :: |J.IngredientEntry(j, p)| <= 1
    ensures forall j, p :: |J.InstructionEntry(j, p)| <= 1
  {
    hide J.IngredientRecord, J.InstructionRecord, J.IngredientName, ToNonEmptyString, ReadLine;
  }

  /**
   * The instructions are the usable entries of `instructions`, in their order, when one of them is
   * usable, and else those of `recipeInstructions`; they are absent only when neither has a usable entry.
   */
  lemma {:induction false} InstructionsFallBack(value: Json)
    ensures
      var first, second := Get(FieldsOf(value), Key.Instructions), Get(FieldsOf(value), Key.RecipeInstructions);
      EntriesFrom(J.InstructionEntry, if HasEntry(J.InstructionEntry, first) then first else second,
        Get(Output(value), Key.Instructions))
  {
    DerivedKeys();
    hide J.TEXT_KEYS, J.OUTPUT, J.FieldValue, J.NormalizeRecipeJsonLd, Output, EntriesFrom, HasEntry, EntryList,
      J.IsInstruction;
    var src := FieldsOf(value);
    OutputIs(value, Key.Instructions);
    EntriesAreSingle();
    InstructionField(src, Key.Instructions);
    InstructionField(src, Key.RecipeInstructions);
    EntryListIsFrom(J.InstructionEntry, Get(src, Key.Instructions));
    EntryListIsFrom(J.InstructionEntry, Get(src, Key.RecipeInstructions));
    ListsAreNotNull(J.InstructionEntry, Get(src, Key.Instructions));
  }

  lemma {:induction false} ListsAreNotNull(f: (Json, nat) -> seq<Json>, j: Json)
    ensures EntryList(f, j) != Null
  {
  }

  lemma {:induction false} InstructionField(src: Fields, k: Key)
    requires k == Key.Instructions || k == Key.RecipeInstructions
    ensures J.FieldValue(k, src) == EntryList(J.InstructionEntry, Get(src, k))
  {
    DerivedKeys();
    hide EntryList, ParseList, J.TEXT_KEYS, J.OUTPUT;
    J.InstructionListResult(Get(src, k));
  }

  /** The ingredients are the usable entries of `ingredients`, and else those of the list of lines. */
  lemma {:induction false} IngredientsFallBack(value: Json)
    ensures
      var first, second := Get(FieldsOf(value), Key.Ingredients), Get(Output(value), Key.RecipeIngredient);
      EntriesFrom(J.IngredientEntry, if HasEntry(J.IngredientEntry, first) then first else second,
        Get(Output(value), Key.Ingredients))
  {
    DerivedKeys();
    PlainKeys();
    hide Plain, J.TEXT_KEYS, J.OUTPUT, J.FieldValue, J.NormalizeRecipeJsonLd, Output, EntriesFrom, HasEntry, EntryList,
      IsIngredient;
    var src := FieldsOf(value);
    OutputIs(value, Key.Ingredients);
    PlainIs(value, Key.RecipeIngredient);
    EntriesAreSingle();
    IngredientField(src);
    EntryListIsFrom(J.IngredientEntry, Get(src, Key.Ingredients));
    EntryListIsFrom(J.IngredientEntry, J.FieldValue(Key.RecipeIngredient, src));
    ListsAreNotNull(J.IngredientEntry, Get(src, Key.Ingredients));
  }

  lemma {:induction false} IngredientField(src: Fields)
    ensures J.FieldValue(Key.Ingredients, src) == EntryList(J.IngredientEntry, Get(src, Key.Ingredients))
  {
    DerivedKeys();
    hide EntryList, ParseList, J.TEXT_KEYS, J.OUTPUT;
    J.IngredientListResult(Get(src, Key.Ingredients));
  }

  // ---------------------------------------------------------------- entries

  const NAMES: seq<Key> := [Key.Name, Key.Ingredient, Key.Line, Key.TextKey]

  const RAWS: seq<Key> := [Key.Raw, Key.Line, Key.TextKey]

  lemma {:induction false} OrderIsRead(entry: Fields, position: nat)
    ensures OrderFrom(FirstGiven(entry, Key.Order, Key.Index), position, J.OrderOf(entry, position))
    ensures J.OrderOf(entry, position).Num?
  {
    hide ToNonNegativeInteger, OrderFrom;
    CoalesceIsFirstGiven(entry, Key.Order, Key.Index);
    OrderIsFrom(FirstGiven(entry, Key.Order, Key.Index), position);
  }

  lemma {:induction false} NameIsFrom(entry: Fields)
    ensures TextFrom(entry, NAMES, OfText(J.IngredientName(entry)))
    ensures TextFrom(entry, RAWS, OfText(J.IngredientRaw(entry)))
  {
    FirstTextIsFrom(entry, NAMES);
    FirstTextIsFrom(entry, RAWS);
    assert Values(entry, NAMES) ==
      [Get(entry, Key.Name), Get(entry, Key.Ingredient), Get(entry, Key.Line), Get(entry, Key.TextKey)];
    assert Values(entry, RAWS) == [Get(entry, Key.Raw), Get(entry, Key.Line), Get(entry, Key.TextKey)];
  }

  lemma {:induction false} RecordIsFrom(entry: Fields, position: nat)
    requires J.IngredientName(entry).Some?
    ensures IngredientFrom(NAMES, RAWS, entry, position, J.IngredientRecord(entry, position))
  {
    hide J.IngredientName, J.IngredientRaw, J.OrderOf, ToNonEmptyString, ToFiniteNumber,
      TextFrom, NumberFrom, OrderFrom,
      Coalesce, FirstGiven;
    NameIsFrom(entry);
    OrderIsRead(entry, position);
    CoalesceIsFirstGiven(entry, Key.Quantity, Key.Amount);
    NumberIsFrom(FirstGiven(entry, Key.Quantity, Key.Amount));
    TextIsFrom(entry, Key.Unit);
    TextIsFrom(entry, Key.Note);
  }

  /** The record of a line of text: its parts, those that are there. */
  predicate LineFrom(line: IngredientLine, f: Fields) {
    && f.Keys <= {Key.Name, Key.Quantity, Key.Unit, Key.Order, Key.Raw} && NoUndef(f)
    && Get(f, Key.Name) == Str(line.name) && Get(f, Key.Raw) == Str(line.raw)
    && Get(f, Key.Order) == Num(line.order as real)
    && (match line.quantity case Some(x) => Get(f, Key.Quantity) == Num(x) case None => Key.Quantity !in f)
    && (match line.unit case Some(u) => Get(f, Key.Unit) == Str(u) case None => Key.Unit !in f)
  }

  /** An entry is an ingredient exactly when it is a line with text, or a record in which one of four properties is. */
  lemma {:induction false} IngredientExactly(entry: Json, position: nat)
    ensures
      var r := J.IngredientEntry(entry, position);
      && (r == [] <==> !HasText(entry) && (entry.Obj? ==> TextFrom(entry.fields, NAMES, Undef)))
      && (HasText(entry) ==> entry.Str? && ReadLine(entry.text, position).Some?)
      && (HasText(entry) ==>
            |r| == 1 && r[0].Obj? && LineFrom(ReadLine(entry.text, position).value, r[0].fields))
      && (r != [] && !HasText(entry) ==>
            |r| == 1 && r[0].Obj? && IngredientFrom(NAMES, RAWS, entry.fields, position, r[0].fields))
  {
    hide HasText, J.IngredientName, J.IngredientRecord, IngredientFrom, ReadLine, J.LineRecord, LineFrom, TextOf,
      TextFrom, ToNonEmptyString;
    HasTextMatches(entry);
    NotText(entry);
    if entry.Str? {
      BlankLine(entry.text, position);
      if ReadLine(entry.text, position).Some? { LineIsFrom(ReadLine(entry.text, position).value); }
    } else if entry.Obj? {
      NameIsFrom(entry.fields);
      var name := J.IngredientName(entry.fields);
      if name.Some? {
        SomeTextSomewhere(entry.fields, NAMES, name.value);
        RecordIsFrom(entry.fields, position);
      }
    }
  }

  lemma {:induction false} BlankLine(text: string, position: nat)
    ensures ReadLine(text, position).None? <==> ToNonEmptyString(Str(text)).None?
  {
    hide Words, LeadingQuantity, UnitAfter;
    TokensConserved(text, position);
    TrimShape(text);
  }

  lemma {:induction false} LineIsFrom(line: IngredientLine)
    ensures LineFrom(line, J.LineRecord(line))
  {
  }

  /** What an instruction record says about the record it was read from. */
  ghost predicate InstructionFrom(entry: Fields, f: Fields) {
    && f.Keys <= J.INSTRUCTION_KEYS && NoUndef(f)
    && Get(f, Key.AtType) ==
         (if Get(entry, Key.AtType) == Str("HowToSection") then Str("HowToSection") else Str("HowToStep"))
    && TextFrom(entry, [Key.TextKey], Get(f, Key.TextKey)) && TextFrom(entry, [Key.Name], Get(f, Key.Name))
    && TextFrom(entry, [Key.Url], Get(f, Key.Url))
  }

  ghost predicate NoInstruction(entry: Fields) {
    !HasText(Get(entry, Key.TextKey)) && !HasText(Get(entry, Key.Name))
  }

  /** An entry is an instruction exactly when it is text, or a record whose text or name is. */
  lemma {:induction false} InstructionExactly(entry: Json, position: nat)
    ensures
      var r := J.InstructionEntry(entry, position);
      && (r == [] <==> !HasText(entry) && (entry.Obj? ==> NoInstruction(entry.fields)))
      && (HasText(entry) ==> exists t :: TextOf(entry, t) && r == [PlainStep(t)])
      && (r != [] && !HasText(entry) ==> |r| == 1 && r[0].Obj? && InstructionFrom(entry.fields, r[0].fields))
  {
    hide ToNonEmptyString, HasText, TextOf, TextFrom;
    HasTextMatches(entry);
    NotText(entry);
    var plain := ToNonEmptyString(entry);
    assert plain.Some? ==> TextOf(entry, plain.value);
    if entry.Obj? {
      HasTextMatches(Get(entry.fields, Key.TextKey));
      HasTextMatches(Get(entry.fields, Key.Name));
      TextIsFrom(entry.fields, Key.TextKey);
      TextIsFrom(entry.fields, Key.Name);
      TextIsFrom(entry.fields, Key.Url);
    }
  }

  function PlainStep(t: string): Json { Obj(map[Key.AtType := Str("HowToStep"), Key.TextKey := Str(t)]) }

  /** The instructions of the plain form of a recipe are not lost. */
  lemma {:induction false} PlainRecipeHasInstructions()
    ensures Get(Output(Obj(map[Key.RecipeInstructions := Arr([Str("Mix")])])), Key.Instructions)
      == Arr([PlainStep("Mix")])
  {
    var given := Arr([Str("Mix")]);
    var value := Obj(map[Key.RecipeInstructions := given]);
    hide Output, J.InstructionEntry;
    InstructionsFallBack(value);
    assert !HasEntry(J.InstructionEntry, Undef);
    MixIsAStep();
    var v := Get(Output(value), Key.Instructions);
    var sources :| IsSelection(J.InstructionEntry, ItemsOf(given), 0, ItemsOf(v), sources);
    assert Reads(J.InstructionEntry, ItemsOf(given), 0, 0, [PlainStep("Mix")]);
    OneSource(J.InstructionEntry, Str("Mix"), PlainStep("Mix"), ItemsOf(v), sources);
  }

  lemma {:induction false} MixIsAStep()
    ensures J.InstructionEntry(Str("Mix"), 0) == [PlainStep("Mix")]
  {
    TrimIsIdentity("Mix");
  }

  lemma {:induction false} OneSource(
      f: (Json, nat) -> seq<Json>, x: Json, y: Json, out: seq<Json>, sources: seq<nat>)
    requires f(x, 0) == [y] && IsSelection(f, [x], 0, out, sources)
    ensures out == [y]
  {
    forall i | 0 <= i < |sources| ensures sources[i] == 0 && [out[i]] == [y] {
      assert Reads(f, [x], 0, sources[i], [out[i]]);
    }
    if |sources| > 1 { FirstTwo(sources); }
    if sources == [] { NoSource(f, x, out); }
  }

  lemma {:induction false} FirstTwo(sources: seq<nat>)
    requires |sources| > 1 && forall i, j :: 0 <= i < j < |sources| ==> sources[i] < sources[j]
    ensures sources[0] < sources[1]
  {
  }

  lemma {:induction false} NoSource(f: (Json, nat) -> seq<Json>, x: Json, out: seq<Json>)
    requires IsSelection(f, [x], 0, out, [])
    ensures f(x, 0) == []
  {
    assert Reads(f, [x], 0, 0, []);
  }
}
