/**
 * What both recipe schemas share: enumerations, nutrition, ingredient records, clean lists, and what the schemas
 * make of them.
 */
module RecipeParts {
  import opened Text
  import opened Json
  import opened Lists
  import opened Numbers
  import opened Schemas

  const DIFFICULTIES: seq<string> := ["EASY", "MEDIUM", "HARD"]
  const BUDGETS: seq<string> := ["LOW", "MEDIUM", "HIGH"]
  const RECIPE_ATTRIBUTES: seq<string> := ["QUICK", "EASY", "HEALTHY", "VEGETARIAN"]
  const RECIPE_CATEGORIES: seq<string> := [
    "MAIN_COURSE", "APPETIZER", "SIDE_DISH", "DESSERT", "DRINK",
    "BREAKFAST", "SNACK", "SOUP", "SALAD", "SAUCE"]

  const NUTRIENTS: set<Key> := {
    Key.Calories, Key.ProteinContent, Key.FatContent, Key.CarbohydrateContent, Key.FiberContent, Key.SodiumContent}

  predicate AllEnumText(keys: seq<string>) { forall i :: 0 <= i < |keys| ==> EnumText(keys[i]) }

  lemma {:induction false} EnumerationsAreEnumText()
    ensures AllEnumText(DIFFICULTIES) && AllEnumText(BUDGETS) && AllEnumText(RECIPE_ATTRIBUTES)
  {
  }

  lemma {:induction false} CategoriesAreEnumText()
    ensures AllEnumText(RECIPE_CATEGORIES)
  {
  }

  /** All six properties are written, those without text as `undefined`. */
  function NormalizeNutrition(value: Json): Json {
    if !value.Obj? then Undef
    else
      var record := map k | k in NUTRIENTS :: OfText(ToNonEmptyString(Get(value.fields, k)));
      if exists k :: k in record && !record[k].Undef? then Obj(record) else Undef
  }

  predicate IsNutrition(j: Json) {
    && j.Obj? && j.fields.Keys == NUTRIENTS
    && (forall k :: k in j.fields ==> j.fields[k].Undef? || IsCleanStr(j.fields[k]))
    && (exists k :: k in j.fields && !j.fields[k].Undef?)
  }

  function NutritionShape(rule: Rule): Shape { map k | k in NUTRIENTS :: rule }

  lemma {:induction false} NutritionResult(value: Json)
    ensures NormalizeNutrition(value).Undef? || IsNutrition(NormalizeNutrition(value))
    ensures IsNutrition(value) ==> NormalizeNutrition(value) == value
  {
    if value.Obj? {
      forall k | k in NUTRIENTS
        ensures var v := OfText(ToNonEmptyString(Get(value.fields, k)));
          (v.Undef? || IsCleanStr(v)) && (IsNutrition(value) ==> v == value.fields[k])
      {
        NonEmptyStringIsClean(Get(value.fields, k));
      }
      if IsNutrition(value) {
        var record := map k | k in NUTRIENTS :: OfText(ToNonEmptyString(Get(value.fields, k)));
        assert record == value.fields;
      }
    }
  }

  lemma {:induction false} NutritionIsAccepted(j: Json, rule: Rule)
    requires IsNutrition(j) && (rule == OptionalText || rule == TrimmedText)
    ensures ParseOptionalObject(NutritionShape(rule), j) == Ok(j)
  {
    var shape := NutritionShape(rule);
    forall k | k in shape ensures ParseRule(shape[k], Get(j.fields, k)) == Ok(Get(j.fields, k)) {
      NonEmptyStringIsClean(Get(j.fields, k));
    }
    ObjectIsFixed(shape, j.fields);
  }

  // ---------------------------------------------------------------- shared records and lists

  const INGREDIENT_KEYS: set<Key> := {
    Key.Name, Key.Quantity, Key.Unit, Key.Note, Key.Optional, Key.Order, Key.Raw}

  const AUTHOR_TYPES: seq<string> := ["Person", "Organization"]

  function FlagOf(j: Json): Json { if j.Bool? then j else Undef }

  predicate CleanOrAbsent(f: Fields, k: Key) { k in f ==> IsCleanStr(f[k]) }

  predicate IsIngredient(j: Json) {
    && j.Obj? && {Key.Name, Key.Order} <= j.fields.Keys <= INGREDIENT_KEYS
    && IsCleanStr(j.fields[Key.Name]) && IntegerFrom(j.fields[Key.Order], 0)
    && (Key.Quantity in j.fields ==> j.fields[Key.Quantity].Num?)
    && (Key.Optional in j.fields ==> j.fields[Key.Optional].Bool?)
    && CleanOrAbsent(j.fields, Key.Unit) && CleanOrAbsent(j.fields, Key.Note) && CleanOrAbsent(j.fields, Key.Raw)
  }

  ghost predicate IsTexts(j: Json) { j.Arr? && AllStr(j.items) && CleanList(Texts(j.items)) }

  ghost predicate IsKeys(allowed: seq<string>, j: Json) {
    j.Arr? && AllStr(j.items) && EnumList(allowed, Texts(j.items))
  }

  lemma {:induction false} CleanStrings(fields: Fields, k: Key)
    ensures var v := OfText(ToNonEmptyString(Get(fields, k)));
      (v.Undef? || IsCleanStr(v)) && (CleanOrAbsent(fields, k) ==> v == Get(fields, k))
  {
    NonEmptyStringIsClean(Get(fields, k));
  }

  lemma {:induction false} FirstIsClean(candidates: seq<Json>)
    ensures FirstText(candidates).Some? ==> IsCleanStr(Str(FirstText(candidates).value))
  {
    FirstTextPicksEarliest(candidates);
  }

  lemma {:induction false} HeadWins(candidates: seq<Json>)
    requires candidates != [] && IsCleanStr(candidates[0])
    ensures FirstText(candidates) == Some(candidates[0].text)
  {
    NonEmptyStringIsClean(candidates[0]);
  }

  lemma {:induction false} NothingUsable(candidates: seq<Json>)
    requires forall i :: 0 <= i < |candidates| ==> candidates[i].Undef?
    ensures FirstText(candidates).None?
  {
    FirstTextPicksEarliest(candidates);
  }

  lemma {:induction false} IngredientHasNoUndef(f: Fields)
    requires IsIngredient(Obj(f))
    ensures f[Key.Name].Str? && forall k :: k in f ==> !f[k].Undef?
  {
  }

  lemma {:induction false} SameFields(a: Fields, b: Fields, keys: set<Key>)
    requires a.Keys <= keys && b.Keys <= keys
    requires forall k :: k in keys ==> Get(a, k) == Get(b, k)
    requires forall k :: k in a ==> !a[k].Undef?
    requires forall k :: k in b ==> !b[k].Undef?
    ensures a == b
  {
    forall k | k in keys ensures k in a <==> k in b {
      assert Get(a, k) == Get(b, k);
    }
    forall k | k in a ensures k in b && a[k] == b[k] {
      assert Get(a, k) == Get(b, k);
    }
    forall k | k in b ensures k in a {
      assert Get(a, k) == Get(b, k);
    }
  }

  lemma {:induction false} CleanStrHasText(j: Json)
    requires IsCleanStr(j)
    ensures j.Str? && |j.text| >= 1
  {
  }

  lemma {:induction false} CleanStringEntry(j: Json)
    ensures ToNonEmptyString(j).Some? ==> IsCleanStr(Str(ToNonEmptyString(j).value))
  {
    NonEmptyStringIsClean(j);
  }

  lemma {:induction false} NotText(j: Json)
    ensures !j.Str? ==> ToNonEmptyString(j).None?
  {
  }

  lemma {:induction false} StayClean(j: Json)
    ensures IsCleanStr(j) ==> OfText(ToNonEmptyString(j)) == j
  {
    NonEmptyStringIsClean(j);
  }

  lemma {:induction false} UndefHasNoNumber()
    ensures ToNonNegativeInteger(Undef).None? && RoundedPositive(Undef).None?
  {
  }

  lemma {:induction false} KeysResult(allowed: seq<string>, j: Json)
    requires AllEnumText(allowed)
    ensures var v := OfTexts(NormalizeEnumValues(j, allowed));
      && (v.Undef? || IsKeys(allowed, v))
      && ParseKeys(allowed, v) == Ok(v)
      && (IsKeys(allowed, j) ==> v == j)
    ensures NormalizeEnumValues(Undef, allowed).None?
  {
    hide AllowedOnly, EnumText;
    EnumValuesAreAllowed(j, allowed);
    var r := NormalizeEnumValues(j, allowed);
    if r.Some? { assert Texts(Strs(r.value)) == r.value; }
    if IsKeys(allowed, j) {
      EnumListIsFixed(Texts(j.items), allowed);
      StrsOfTexts(j.items);
    }
  }

  lemma {:induction false} NothingFromUndef()
    ensures NormalizeStringArray(Undef).None? && NormalizeStringList(Undef).None?
  {
  }

  lemma {:induction false} TextsRoundTrip(texts: Option<seq<string>>)
    ensures texts.Some? ==> AllStr(OfTexts(texts).items) && Texts(OfTexts(texts).items) == texts.value
  {
    if texts.Some? { assert Texts(Strs(texts.value)) == texts.value; }
  }

  lemma {:induction false} IngredientValuesAreFixed(f: Fields)
    requires IsIngredient(Obj(f))
    ensures OfReal(ToFiniteNumber(Coalesce(Get(f, Key.Quantity), Get(f, Key.Amount)))) == Get(f, Key.Quantity)
    ensures OfText(ToNonEmptyString(Get(f, Key.Unit))) == Get(f, Key.Unit)
    ensures OfText(ToNonEmptyString(Get(f, Key.Note))) == Get(f, Key.Note)
    ensures FlagOf(Get(f, Key.Optional)) == Get(f, Key.Optional)
  {
    hide ToNonEmptyString, IsCleanStr;
    CleanStrings(f, Key.Unit); CleanStrings(f, Key.Note);
  }


  predicate IsOneOf(allowed: seq<string>, j: Json) { j.Str? && j.text in allowed }

  lemma {:induction false} EnumResult(allowed: seq<string>, j: Json)
    requires AllEnumText(allowed)
    ensures var v := OfText(NormalizeEnumValue(j, allowed));
      && ParseRule(OneOf(allowed), v) == Ok(v)
      && (v.Undef? || IsOneOf(allowed, v))
      && (IsOneOf(allowed, j) ==> v == j)
    ensures NormalizeEnumValue(Undef, allowed).None?
  {
    hide NormalizeEnumKey, EnumText;
    NotText(Undef);
    if IsOneOf(allowed, j) {
      EnumKeyIsFixed(j.text);
      NonEmptyStringIsClean(j);
    }
  }

  lemma {:induction false} NameIsText(f: Fields)
    requires CleanOrAbsent(f, Key.Name)
    ensures Key.Name in f ==> f[Key.Name].Str?
  {
  }

  /** The ingredient schemas differ only in the least length of a name. */
  function IngredientShape(min: nat): Shape {
    map[
      Key.Name := RequiredText(min), Key.Quantity := FiniteNumber, Key.Unit := TrimmedText,
      Key.Note := TrimmedText, Key.Optional := OptionalFlag, Key.Order := OrderNumber, Key.Raw := TrimmedText]
  }

  lemma {:induction false} CleanIsAccepted(f: Fields, k: Key)
    requires CleanOrAbsent(f, k)
    ensures ParseRule(TrimmedText, Get(f, k)) == Ok(Get(f, k))
  {
    NonEmptyStringIsClean(Get(f, k));
  }

  lemma {:induction false} IngredientIsAccepted(j: Json, min: nat)
    requires IsIngredient(j) && min <= 1
    ensures ParseObject(IngredientShape(min), j) == Ok(j)
  {
    hide ToNonEmptyString, IsCleanStr, ToNonNegativeInteger, RoundedPositive;
    var f, shape := j.fields, IngredientShape(min);
    CleanStrHasText(f[Key.Name]);
    forall k | k in shape ensures ParseRule(shape[k], Get(f, k)) == Ok(Get(f, k)) {
      match k
      case Name => case Quantity => case Optional => case Order =>
      case Unit => CleanIsAccepted(f, k);
      case Note => CleanIsAccepted(f, k);
      case Raw => CleanIsAccepted(f, k);
    }
    ObjectIsFixed(shape, f);
  }
}
