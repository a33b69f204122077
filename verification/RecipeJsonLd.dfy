/**
 * `RecipeJsonLdSchema`: any value becomes a recipe record in JSON-LD terms, with derived properties. The records
 * that it leaves unchanged are described by themselves.
 */
module RecipeJsonLd {
  import opened Text
  import opened Json
  import opened Numbers
  import opened Lists
  import opened Schemas
  import opened RecipeParts
  import opened Durations
  import opened IngredientLines

  const INGREDIENT: Shape := IngredientShape(0)

  const INSTRUCTION_TYPES: seq<string> := ["HowToStep", "HowToSection"]

  const INSTRUCTION: Shape := map[
    Key.AtType := OneOf(INSTRUCTION_TYPES), Key.TextKey := OptionalText, Key.Name := OptionalText,
    Key.Url := OptionalText]

  const INSTRUCTION_KEYS: set<Key> := {Key.AtType, Key.TextKey, Key.Name, Key.Url}

  const AUTHOR: Shape := map[Key.AtType := OneOf(AUTHOR_TYPES), Key.Name := OptionalText]

  const RATING: Shape := map[Key.RatingValue := OptionalNumber, Key.ReviewCount := OptionalNumber]

  const TEXT_KEYS: set<Key> := {
    Key.AtContext, Key.Name, Key.Description, Key.DatePublished, Key.PrepTime, Key.CookTime, Key.TotalTime,
    Key.YieldUnitLabel, Key.Keywords, Key.Cuisine}

  const OUTPUT: set<Key> := TEXT_KEYS + {
    Key.AtType, Key.Author, Key.PrepTimeMin, Key.CookTimeMin, Key.TotalTimeMin, Key.Servings, Key.RecipeYield,
    Key.Difficulty, Key.Budget, Key.Categories, Key.Attributes, Key.RecipeIngredient, Key.Ingredients,
    Key.Instructions, Key.Nutrition, Key.Image, Key.AggregateRating}

  const INPUT: set<Key> := OUTPUT + {Key.RecipeInstructions}

  // ---------------------------------------------------------------- preprocessing

  function OrderOf(entry: Fields, position: nat): Json {
    var order := ToNonNegativeInteger(Coalesce(Get(entry, Key.Order), Get(entry, Key.Index)));
    if order.Some? then OfInt(order) else Num(position as real)
  }

  function IngredientRaw(entry: Fields): Option<string> {
    FirstText([Get(entry, Key.Raw), Get(entry, Key.Line), Get(entry, Key.TextKey)])
  }

  function IngredientName(entry: Fields): Option<string> {
    FirstText([Get(entry, Key.Name), Get(entry, Key.Ingredient), Get(entry, Key.Line), Get(entry, Key.TextKey)])
  }

  function IngredientRecord(entry: Fields, position: nat): Fields
    requires IngredientName(entry).Some?
  {
    Compact(map[
      Key.Name := Str(IngredientName(entry).value),
      Key.Quantity := OfReal(ToFiniteNumber(Coalesce(Get(entry, Key.Quantity), Get(entry, Key.Amount)))),
      Key.Unit := OfText(ToNonEmptyString(Get(entry, Key.Unit))),
      Key.Note := OfText(ToNonEmptyString(Get(entry, Key.Note))),
      Key.Optional := FlagOf(Get(entry, Key.Optional)),
      Key.Order := OrderOf(entry, position),
      Key.Raw := OfText(IngredientRaw(entry))])
  }

  function LineRecord(line: IngredientLine): Fields {
    Compact(map[
      Key.Name := Str(line.name), Key.Quantity := OfReal(line.quantity), Key.Unit := OfText(line.unit),
      Key.Order := Num(line.order as real), Key.Raw := Str(line.raw)])
  }

  function IngredientEntry(entry: Json, position: nat): seq<Json> {
    if entry.Str? then
      var line := ReadLine(entry.text, position);
      if line.None? then [] else [Obj(LineRecord(line.value))]
    else if entry.Obj? && IngredientName(entry.fields).Some? then [Obj(IngredientRecord(entry.fields, position))]
    else []
  }

  function InstructionRecord(entry: Fields): Fields {
    Compact(map[
      Key.AtType := Str(if Get(entry, Key.AtType) == Str("HowToSection") then "HowToSection" else "HowToStep"),
      Key.TextKey := OfText(ToNonEmptyString(Get(entry, Key.TextKey))),
      Key.Name := OfText(ToNonEmptyString(Get(entry, Key.Name))),
      Key.Url := OfText(ToNonEmptyString(Get(entry, Key.Url)))])
  }

  function InstructionEntry(entry: Json, position: nat): seq<Json> {
    if entry.Str? then
      var text := ToNonEmptyString(entry);
      if text.None? then [] else [Obj(map[Key.AtType := Str("HowToStep"), Key.TextKey := Str(text.value)])]
    else if !entry.Obj? then []
    else if
      ToNonEmptyString(Get(entry.fields, Key.TextKey)).None? && ToNonEmptyString(Get(entry.fields, Key.Name)).None?
    then []
    else [Obj(InstructionRecord(entry.fields))]
  }

  function AuthorType(fields: Fields): Json {
    var at := Get(fields, Key.AtType);
    if at.Str? && at.text in AUTHOR_TYPES then at else Undef
  }

  function NormalizeAuthor(value: Json): Json {
    var plain := ToNonEmptyString(value);
    if plain.Some? then Obj(map[Key.Name := Str(plain.value)])
    else if !value.Obj? then Undef
    else
      var name := OfText(ToNonEmptyString(Get(value.fields, Key.Name)));
      var kind := AuthorType(value.fields);
      if name.Undef? && kind.Undef? then Undef else Obj(Compact(map[Key.AtType := kind, Key.Name := name]))
  }

  function NumberOnly(j: Json): Json { if j.Num? then j else Undef }

  function NormalizeRating(value: Json): Json {
    if !value.Obj? then Undef
    else
      var rating := NumberOnly(Get(value.fields, Key.RatingValue));
      var count := NumberOnly(Get(value.fields, Key.ReviewCount));
      if rating.Undef? && count.Undef? then Undef
      else Obj(Compact(map[Key.RatingValue := rating, Key.ReviewCount := count]))
  }

  function NormalizeRecipeType(value: Json): Json {
    if value == Str("Recipe") || (value.Arr? && Str("Recipe") in value.items) then Str("Recipe") else Undef
  }

  function NormalizeRecipeYield(value: Json): Json {
    if value.Num? then value else OfText(ToNonEmptyString(value))
  }

  // ---------------------------------------------------------------- derived properties

  predicate IsLineTerminator(c: char) { c == '\n' || c == '\r' || c == '\U{2028}' || c == '\U{2029}' }

  predicate OneLine(s: string) { forall i :: 0 <= i < |s| ==> !IsLineTerminator(s[i]) }

  /** `^(\d+(?:[.,]\d+)?)(?:\s+(.+))?$`: the number and what follows it. */
  function MatchLeadingYield(s: string): Option<(string, Option<string>)> {
    var n := DecimalRun(s);
    var rest := s[n..];
    var r := TrimStart(rest);
    if n == 0 then None
    else if rest == "" then Some((s[..n], None))
    else if r == rest then None
    else if r != "" then (if OneLine(r) then Some((s[..n], Some(r))) else None)
    else if |rest| >= 2 && OneLine(rest[|rest| - 1..]) then Some((s[..n], Some(rest[|rest| - 1..])))
    else None
  }

  function DeriveServings(recipeYield: Json): Json {
    if recipeYield.Num? then OfInt(RoundedPositive(recipeYield))
    else if !recipeYield.Str? then Undef
    else
      var m := MatchLeadingYield(recipeYield.text);
      if m.None? then Undef else OfInt(RoundedPositive(Str(m.value.0)))
  }

  function DeriveYieldLabel(explicit: Json, recipeYield: Json): Json {
    if Truthy(explicit) then explicit
    else if !recipeYield.Str? then Undef
    else
      var m := MatchLeadingYield(recipeYield.text);
      var remainder := if m.Some? && m.value.1.Some? then ToNonEmptyString(Str(m.value.1.value)) else None;
      if remainder.Some? then Str(remainder.value) else recipeYield
  }

  function DeriveTotal(prep: Json, cook: Json): Json {
    if prep.Undef? && cook.Undef? then Undef
    else Num((if prep.Num? then prep.num else 0.0) + (if cook.Num? then cook.num else 0.0))
  }

  // ---------------------------------------------------------------- the schema

  function ParseField(k: Key, j: Json): Result<Json> {
    if k in TEXT_KEYS then ParseRule(TrimmedText, j)
    else
      match k
      case AtType =>
        var t := NormalizeRecipeType(j);
        Check(t == Undef || t == Str("Recipe"), t)
      case Author => ParseOptionalObject(AUTHOR, NormalizeAuthor(j))
      case PrepTimeMin => ParseRule(NonNegativeInteger, j)
      case CookTimeMin => ParseRule(NonNegativeInteger, j)
      case TotalTimeMin => ParseRule(NonNegativeInteger, j)
      case Servings => ParseRule(PositiveInteger, j)
      case RecipeYield =>
        var v := NormalizeRecipeYield(j);
        Check(v.Undef? || v.Str? || v.Num?, v)
      case Difficulty => ParseRule(OneOf(DIFFICULTIES), OfText(NormalizeEnumValue(j, DIFFICULTIES)))
      case Budget => ParseRule(OneOf(BUDGETS), OfText(NormalizeEnumValue(j, BUDGETS)))
      case Categories => ParseKeys(RECIPE_CATEGORIES, OfTexts(NormalizeEnumValues(j, RECIPE_CATEGORIES)))
      case Attributes => ParseKeys(RECIPE_ATTRIBUTES, OfTexts(NormalizeEnumValues(j, RECIPE_ATTRIBUTES)))
      case RecipeIngredient => ParseTexts(OfTexts(NormalizeStringArray(j)))
      case Ingredients => ParseList(INGREDIENT, EntryList(IngredientEntry, j))
      case Instructions => ParseList(INSTRUCTION, EntryList(InstructionEntry, j))
      case RecipeInstructions => ParseList(INSTRUCTION, EntryList(InstructionEntry, j))
      case Nutrition => ParseOptionalObject(NutritionShape(OptionalText), NormalizeNutrition(j))
      case Image => ParseTextOrTexts(NormalizeImage(j))
      case AggregateRating => ParseOptionalObject(RATING, NormalizeRating(j))
      case _ => Ok(Undef)
  }

  function FieldValue(k: Key, src: Fields): Json {
    var r := ParseField(k, Get(src, k));
    if r.Ok? then r.value else Undef
  }

  function Minutes(minutesKey: Key, textKey: Key, src: Fields): Json {
    Coalesce(FieldValue(minutesKey, src), OfInt(NormalizeMinutes(FieldValue(textKey, src))))
  }

  /** The transform, property by property: explicit values first, then derived ones. */
  function OutputValue(k: Key, src: Fields): Json {
    match k
    case Instructions => Coalesce(FieldValue(Key.Instructions, src), FieldValue(Key.RecipeInstructions, src))
    case Ingredients =>
      Coalesce(FieldValue(Key.Ingredients, src), EntryList(IngredientEntry, FieldValue(Key.RecipeIngredient, src)))
    case Servings => Coalesce(FieldValue(Key.Servings, src), DeriveServings(FieldValue(Key.RecipeYield, src)))
    case YieldUnitLabel => DeriveYieldLabel(FieldValue(Key.YieldUnitLabel, src), FieldValue(Key.RecipeYield, src))
    case PrepTimeMin => Minutes(Key.PrepTimeMin, Key.PrepTime, src)
    case CookTimeMin => Minutes(Key.CookTimeMin, Key.CookTime, src)
    case TotalTimeMin =>
      Coalesce(Minutes(Key.TotalTimeMin, Key.TotalTime, src),
        DeriveTotal(Minutes(Key.PrepTimeMin, Key.PrepTime, src), Minutes(Key.CookTimeMin, Key.CookTime, src)))
    case _ => FieldValue(k, src)
  }

  predicate Kept(k: Key, j: Json) {
    if k in {Key.RecipeYield, Key.Servings, Key.PrepTimeMin, Key.CookTimeMin, Key.TotalTimeMin} then !j.Undef?
    else Truthy(j)
  }

  function Assemble(keys: set<Key>, src: Fields): Fields {
    map k | k in keys && Kept(k, OutputValue(k, src)) :: OutputValue(k, src)
  }

  function RecipeJsonLdSchema(value: Json): Result<Json> {
    var src := if value.Obj? then value.fields else map[];
    if exists k :: k in INPUT && ParseField(k, Get(src, k)).Err? then Err
    else Ok(Obj(Assemble(OUTPUT, src)))
  }

  function NormalizeRecipeJsonLd(value: Json): Json {
    var parsed := RecipeJsonLdSchema(value);
    if parsed.Ok? then parsed.value else Obj(map[])
  }

  // ---------------------------------------------------------------- the records, by themselves

  predicate IsInstruction(j: Json) {
    && j.Obj? && {Key.AtType} <= j.fields.Keys <= INSTRUCTION_KEYS
    && IsOneOf(INSTRUCTION_TYPES, j.fields[Key.AtType])
    && CleanOrAbsent(j.fields, Key.TextKey) && CleanOrAbsent(j.fields, Key.Name) && CleanOrAbsent(j.fields, Key.Url)
    && (Key.TextKey in j.fields || Key.Name in j.fields)
  }

  predicate IsAuthor(j: Json) {
    && j.Obj? && j.fields != map[] && j.fields.Keys <= {Key.AtType, Key.Name}
    && CleanOrAbsent(j.fields, Key.Name)
    && (Key.AtType in j.fields ==> IsOneOf(AUTHOR_TYPES, j.fields[Key.AtType]))
  }

  predicate IsRating(j: Json) {
    && j.Obj? && j.fields != map[] && j.fields.Keys <= {Key.RatingValue, Key.ReviewCount}
    && forall k :: k in j.fields ==> j.fields[k].Num?
  }

  ghost predicate IsField(k: Key, j: Json) {
    if k in TEXT_KEYS then IsCleanStr(j)
    else
      match k
      case AtType => j == Str("Recipe")
      case Author => IsAuthor(j)
      case PrepTimeMin => IntegerFrom(j, 0)
      case CookTimeMin => IntegerFrom(j, 0)
      case TotalTimeMin => IntegerFrom(j, 0)
      case Servings => IntegerFrom(j, 1)
      case RecipeYield => j.Num? || IsCleanStr(j)
      case Difficulty => IsOneOf(DIFFICULTIES, j)
      case Budget => IsOneOf(BUDGETS, j)
      case Categories => IsKeys(RECIPE_CATEGORIES, j)
      case Attributes => IsKeys(RECIPE_ATTRIBUTES, j)
      case RecipeIngredient => IsTexts(j)
      case Ingredients => IsListOf(IsIngredient, j)
      case Instructions => IsListOf(IsInstruction, j)
      case RecipeInstructions => IsListOf(IsInstruction, j)
      case Nutrition => IsNutrition(j)
      case Image => IsCleanStr(j) || IsTexts(j)
      case AggregateRating => IsRating(j)
      case _ => false
  }

  /** Nothing more can be derived: a derivable property is absent only if its source yields nothing. */
  ghost predicate Closed(f: Fields) {
    && (Key.Servings !in f ==> DeriveServings(Get(f, Key.RecipeYield)).Undef?)
    && (Key.YieldUnitLabel !in f ==> !Get(f, Key.RecipeYield).Str?)
    && (Key.PrepTimeMin !in f ==> NormalizeMinutes(Get(f, Key.PrepTime)).None?)
    && (Key.CookTimeMin !in f ==> NormalizeMinutes(Get(f, Key.CookTime)).None?)
    && (Key.TotalTimeMin !in f ==>
          NormalizeMinutes(Get(f, Key.TotalTime)).None? && Key.PrepTimeMin !in f && Key.CookTimeMin !in f)
    && (Key.Ingredients !in f ==> Key.RecipeIngredient !in f)
  }

  ghost predicate IsRecipeRecord(j: Json) {
    && j.Obj? && j.fields.Keys <= OUTPUT
    && (forall k :: k in j.fields ==> IsField(k, j.fields[k]))
    && Closed(j.fields)
  }

  // ---------------------------------------------------------------- list entries

  lemma {:induction false} OrderIsInteger(entry: Fields, position: nat)
    ensures IntegerFrom(OrderOf(entry, position), 0)
    ensures Key.Order in entry && IntegerFrom(entry[Key.Order], 0) ==> OrderOf(entry, position) == entry[Key.Order]
  {
    hide ToNonNegativeInteger;
    var j := Coalesce(Get(entry, Key.Order), Get(entry, Key.Index));
    IntegersAreInRange(j);
    IntegersAreFixed(j);
  }

  lemma {:induction false} RecordIsIngredient(entry: Fields, position: nat)
    requires IngredientName(entry).Some?
    ensures IsIngredient(Obj(IngredientRecord(entry, position)))
  {
    hide ToNonEmptyString, FirstText, OrderOf, IsCleanStr, ToFiniteNumber;
    CleanStrings(entry, Key.Unit); CleanStrings(entry, Key.Note);
    OrderIsInteger(entry, position);
    FirstIsClean([Get(entry, Key.Raw), Get(entry, Key.Line), Get(entry, Key.TextKey)]);
    FirstIsClean([Get(entry, Key.Name), Get(entry, Key.Ingredient), Get(entry, Key.Line), Get(entry, Key.TextKey)]);
  }

  lemma {:induction false} UnitIsClean(token: string)
    ensures NormalizeUnitToken(token).Some? ==> IsCleanStr(Str(NormalizeUnitToken(token).value))
  {
    hide DropMarks, DropTrailingCommas, LowerText, Trim;
    UnitKeysAreLetters(DropTrailingCommas(DropMarks(LowerText(Trim(token)))));
  }

  lemma {:induction false} LineIsIngredient(text: string, position: nat)
    requires ReadLine(text, position).Some?
    ensures IsIngredient(Obj(LineRecord(ReadLine(text, position).value)))
  {
    var line := ReadLine(text, position).value;
    TokensConserved(text, position);
    LineUnit(text, position);
    LineParts(line);
  }

  lemma {:induction false} LineUnit(text: string, position: nat)
    requires ReadLine(text, position).Some?
    ensures var line := ReadLine(text, position).value;
      (line.unit.Some? ==> IsCleanStr(Str(line.unit.value))) && line.order == position
  {
    hide Words, IsCleanStr, LeadingQuantity, NormalizeUnitToken;
    TrimShape(text);
    var tokens := Words(Trim(text));
    var consumed := LeadingQuantity(tokens).1;
    if consumed < |tokens| { UnitIsClean(tokens[consumed]); }
  }

  lemma {:induction false} LineParts(line: IngredientLine)
    requires CleanText(line.name) && CleanText(line.raw)
    requires line.unit.Some? ==> IsCleanStr(Str(line.unit.value))
    ensures IsIngredient(Obj(LineRecord(line)))
  {
    hide IsSpace;
  }

  lemma {:induction false} EntryIsIngredient(j: Json, position: nat)
    ensures forall i :: 0 <= i < |IngredientEntry(j, position)| ==> IsIngredient(IngredientEntry(j, position)[i])
  {
    hide IsIngredient, ReadLine, IngredientRecord, LineRecord;
    if j.Str? && ReadLine(j.text, position).Some? {
      LineIsIngredient(j.text, position);
    } else if j.Obj? && IngredientName(j.fields).Some? {
      RecordIsIngredient(j.fields, position);
    }
  }

  lemma {:induction false} IngredientNamesAreFixed(f: Fields)
    requires IsIngredient(Obj(f))
    ensures IngredientName(f) == Some(f[Key.Name].text) && OfText(IngredientRaw(f)) == Get(f, Key.Raw)
  {
    hide FirstText;
    var raws := [Get(f, Key.Raw), Get(f, Key.Line), Get(f, Key.TextKey)];
    if Key.Raw in f { HeadWins(raws); } else { NothingUsable(raws); }
    HeadWins([Get(f, Key.Name), Get(f, Key.Ingredient), Get(f, Key.Line), Get(f, Key.TextKey)]);
  }

  lemma {:induction false} IngredientRecordIsFixed(f: Fields, position: nat)
    requires IsIngredient(Obj(f)) && IngredientName(f) == Some(f[Key.Name].text)
    requires OfText(IngredientRaw(f)) == Get(f, Key.Raw)
    ensures IngredientRecord(f, position) == f
  {
    hide FirstText, ToNonEmptyString, OrderOf, IngredientName, IngredientRaw, ToFiniteNumber, IsCleanStr,
      FlagOf, Coalesce, OfReal, OfText;
    IngredientValuesAreFixed(f);
    OrderIsInteger(f, position);
    IngredientHasNoUndef(f);
    var record := IngredientRecord(f, position);
    assert record.Keys <= INGREDIENT_KEYS && f.Keys <= INGREDIENT_KEYS;
    forall k | k in INGREDIENT_KEYS ensures Get(record, k) == Get(f, k) {
      match k
      case Name => case Quantity => case Unit => case Note => case Optional => case Order => case Raw =>
    }
    SameFields(record, f, INGREDIENT_KEYS);
  }

  lemma {:induction false} IngredientIsFixed(j: Json, position: nat)
    requires IsIngredient(j)
    ensures IngredientEntry(j, position) == [j]
  {
    hide IngredientName, IngredientRaw, IngredientRecord;
    IngredientNamesAreFixed(j.fields);
    IngredientRecordIsFixed(j.fields, position);
  }

  lemma {:induction false} IngredientListResult(j: Json)
    ensures var v := EntryList(IngredientEntry, j);
      && ParseList(INGREDIENT, v) == Ok(v)
      && (v.Undef? || IsListOf(IsIngredient, v))
      && (IsListOf(IsIngredient, j) ==> v == j)
  {
    hide IngredientEntry, IsIngredient, EntryList, ParseList;
    forall j, p, i | 0 <= i < |IngredientEntry(j, p)| ensures IsIngredient(IngredientEntry(j, p)[i]) {
      EntryIsIngredient(j, p);
    }
    forall j, p | IsIngredient(j) ensures IngredientEntry(j, p) == [j] {
      IngredientIsFixed(j, p);
    }
    forall j | IsIngredient(j) ensures ParseObject(INGREDIENT, j) == Ok(j) {
      IngredientIsAccepted(j, 0);
    }
    EntryListResult(IngredientEntry, IsIngredient, INGREDIENT, j);
  }

  lemma {:induction false} EntryIsInstruction(j: Json, position: nat)
    ensures forall i :: 0 <= i < |InstructionEntry(j, position)| ==> IsInstruction(InstructionEntry(j, position)[i])
  {
    hide IsCleanStr, ToNonEmptyString;
    if j.Str? {
      CleanStringEntry(j);
    } else if j.Obj? {
      CleanStrings(j.fields, Key.TextKey); CleanStrings(j.fields, Key.Name); CleanStrings(j.fields, Key.Url);
    }
  }

  lemma {:induction false} InstructionIsFixed(j: Json, position: nat)
    requires IsInstruction(j)
    ensures InstructionEntry(j, position) == [j]
  {
    hide IsCleanStr, ToNonEmptyString;
    var f := j.fields;
    CleanStrings(f, Key.TextKey); CleanStrings(f, Key.Name); CleanStrings(f, Key.Url);
    InstructionHasNoUndef(f);
    var record := InstructionRecord(f);
    forall k | k in INSTRUCTION_KEYS ensures Get(record, k) == Get(f, k) {
      match k
      case AtType => case TextKey => case Name => case Url =>
    }
    SameFields(record, f, INSTRUCTION_KEYS);
  }

  lemma {:induction false} InstructionHasNoUndef(f: Fields)
    requires IsInstruction(Obj(f))
    ensures forall k :: k in f ==> f[k].Str?
  {
  }

  lemma {:induction false} InstructionIsAccepted(j: Json)
    requires IsInstruction(j)
    ensures ParseObject(INSTRUCTION, j) == Ok(j)
  {
    InstructionHasNoUndef(j.fields);
    ObjectIsFixed(INSTRUCTION, j.fields);
  }

  lemma {:induction false} InstructionListResult(j: Json)
    ensures var v := EntryList(InstructionEntry, j);
      && ParseList(INSTRUCTION, v) == Ok(v)
      && (v.Undef? || IsListOf(IsInstruction, v))
      && (IsListOf(IsInstruction, j) ==> v == j)
  {
    hide InstructionEntry, IsInstruction, EntryList, ParseList;
    forall j, p, i | 0 <= i < |InstructionEntry(j, p)| ensures IsInstruction(InstructionEntry(j, p)[i]) {
      EntryIsInstruction(j, p);
    }
    forall j, p | IsInstruction(j) ensures InstructionEntry(j, p) == [j] {
      InstructionIsFixed(j, p);
    }
    forall j | IsInstruction(j) ensures ParseObject(INSTRUCTION, j) == Ok(j) {
      InstructionIsAccepted(j);
    }
    EntryListResult(InstructionEntry, IsInstruction, INSTRUCTION, j);
  }

  lemma {:induction false} AuthorIsAuthor(j: Json)
    ensures NormalizeAuthor(j).Undef? || IsAuthor(NormalizeAuthor(j))
  {
    hide ToNonEmptyString, IsCleanStr;
    var v := NormalizeAuthor(j);
    CleanStringEntry(j);
    if j.Obj? { CleanStrings(j.fields, Key.Name); }
    assert v.Obj? ==> Key.Name in v.fields || Key.AtType in v.fields;
  }

  lemma {:induction false} AuthorIsFixed(j: Json)
    requires IsAuthor(j)
    ensures NormalizeAuthor(j) == j
    ensures ParseOptionalObject(AUTHOR, j) == Ok(j)
  {
    hide IsCleanStr;
    CleanStrings(j.fields, Key.Name);
    NameIsText(j.fields);
    var name, kind := OfText(ToNonEmptyString(Get(j.fields, Key.Name))), AuthorType(j.fields);
    assert name == Get(j.fields, Key.Name) && kind == Get(j.fields, Key.AtType);
    assert exists k :: k in j.fields;
    SameFields(Compact(map[Key.AtType := kind, Key.Name := name]), j.fields, {Key.AtType, Key.Name});
    ObjectIsFixed(AUTHOR, j.fields);
  }

  lemma {:induction false} RatingResult(j: Json)
    ensures NormalizeRating(j).Undef? || IsRating(NormalizeRating(j))
    ensures IsRating(j) ==> NormalizeRating(j) == j && ParseOptionalObject(RATING, j) == Ok(j)
  {
    var v := NormalizeRating(j);
    assert v.Obj? ==> Key.RatingValue in v.fields || Key.ReviewCount in v.fields;
    if IsRating(j) {
      assert exists k :: k in j.fields;
      SameFields(v.fields, j.fields, {Key.RatingValue, Key.ReviewCount});
      ObjectIsFixed(RATING, j.fields);
    }
  }

  // ---------------------------------------------------------------- one property at a time

  ghost predicate Settles(k: Key, src: Fields) {
    && ParseField(k, Get(src, k)).Ok?
    && (FieldValue(k, src).Undef? || IsField(k, FieldValue(k, src)))
    && (IsField(k, Get(src, k)) ==> FieldValue(k, src) == Get(src, k))
    && (k !in src ==> FieldValue(k, src) == Undef)
  }

  lemma {:induction false} TextSettles(k: Key, src: Fields)
    requires k in TEXT_KEYS
    ensures Settles(k, src)
  {
    hide ToNonEmptyString, IsCleanStr, TEXT_KEYS;
    CleanStringEntry(Get(src, k));
    NotText(Undef);
    StayClean(Get(src, k));
  }

  lemma {:induction false} NumberSettles(k: Key, src: Fields)
    requires k in {Key.Servings, Key.PrepTimeMin, Key.CookTimeMin, Key.TotalTimeMin}
    ensures Settles(k, src)
  {
    hide ToNonNegativeInteger, RoundedPositive;
    IntegersAreFixed(Get(src, k));
    IntegersAreInRange(Get(src, k));
    UndefHasNoNumber();
  }

  lemma {:induction false} PlainSettles(k: Key, src: Fields)
    requires k in {Key.AtType, Key.RecipeYield}
    ensures Settles(k, src)
  {
    hide IsCleanStr, ToNonEmptyString;
    var j := Get(src, k);
    CleanStringEntry(j);
    StayClean(j);
    NotText(j); NotText(Undef);
    if IsCleanStr(j) { CleanStrHasText(j); }
  }

  lemma {:induction false} ListsSettle(k: Key, src: Fields)
    requires k in {Key.Image, Key.RecipeIngredient}
    ensures Settles(k, src)
  {
    hide CleanList, NormalizeStringArray, IsCleanStr, ToNonEmptyString;
    var j := Get(src, k);
    StringListIsClean(j);
    TextsRoundTrip(NormalizeStringArray(j));
    CleanStringEntry(j);
    StayClean(j);
    NotText(j); NotText(Undef);
    NothingFromUndef();
    if IsTexts(j) {
      CleanListIsFixed(Texts(j.items));
      StrsOfTexts(j.items);
    }
    if IsCleanStr(j) { CleanStrHasText(j); }
  }

  lemma {:induction false} EnumFields(j: Json)
    ensures ParseField(Key.Difficulty, j) == ParseRule(OneOf(DIFFICULTIES), OfText(NormalizeEnumValue(j, DIFFICULTIES)))
    ensures ParseField(Key.Budget, j) == ParseRule(OneOf(BUDGETS), OfText(NormalizeEnumValue(j, BUDGETS)))
    ensures IsField(Key.Difficulty, j) <==> IsOneOf(DIFFICULTIES, j)
    ensures IsField(Key.Budget, j) <==> IsOneOf(BUDGETS, j)
  {
    hide ParseRule, NormalizeEnumValue, IsOneOf;
  }

  lemma {:induction false} EnumSettles(k: Key, src: Fields)
    requires k in {Key.Difficulty, Key.Budget}
    ensures Settles(k, src)
  {
    hide ParseField, ParseRule, IsField, NormalizeEnumValue, AllEnumText, IsOneOf, TEXT_KEYS;
    var j := Get(src, k);
    var allowed := if k.Difficulty? then DIFFICULTIES else BUDGETS;
    EnumerationsAreEnumText();
    EnumResult(allowed, j);
    EnumFields(j);
    EnumFields(OfText(NormalizeEnumValue(j, allowed)));
  }

  lemma {:induction false} KeysSettle(k: Key, src: Fields)
    requires k in {Key.Categories, Key.Attributes}
    ensures Settles(k, src)
  {
    hide NormalizeEnumValues, AllEnumText, EnumList;
    EnumerationsAreEnumText(); CategoriesAreEnumText();
    KeysResult(if k.Categories? then RECIPE_CATEGORIES else RECIPE_ATTRIBUTES, Get(src, k));
  }

  lemma {:induction false} RecordsSettle(k: Key, src: Fields)
    requires k in {Key.Ingredients, Key.Instructions, Key.RecipeInstructions}
    ensures Settles(k, src)
  {
    hide IngredientEntry, InstructionEntry, ParseObject, IsListOf;
    if k == Key.Ingredients { IngredientListResult(Get(src, k)); } else { InstructionListResult(Get(src, k)); }
  }

  lemma {:induction false} AuthorField(j: Json)
    ensures ParseField(Key.Author, j) == ParseOptionalObject(AUTHOR, NormalizeAuthor(j))
    ensures IsField(Key.Author, j) <==> IsAuthor(j)
  {
    hide ParseOptionalObject, NormalizeAuthor, IsAuthor, IsNutrition, IsRating;
  }

  lemma {:induction false} NutritionField(j: Json)
    ensures ParseField(Key.Nutrition, j) == ParseOptionalObject(NutritionShape(OptionalText), NormalizeNutrition(j))
    ensures IsField(Key.Nutrition, j) <==> IsNutrition(j)
  {
    hide ParseOptionalObject, NormalizeNutrition, IsAuthor, IsNutrition, IsRating;
  }

  lemma {:induction false} RatingField(j: Json)
    ensures ParseField(Key.AggregateRating, j) == ParseOptionalObject(RATING, NormalizeRating(j))
    ensures IsField(Key.AggregateRating, j) <==> IsRating(j)
  {
    hide ParseOptionalObject, NormalizeRating, IsAuthor, IsNutrition, IsRating;
  }

  lemma {:induction false} ObjectsSettle(k: Key, src: Fields)
    requires k in {Key.Author, Key.Nutrition, Key.AggregateRating}
    ensures Settles(k, src)
  {
    hide ParseField, IsField, TEXT_KEYS, ParseObject, NormalizeAuthor, NormalizeNutrition, NormalizeRating, IsAuthor,
      IsNutrition, IsRating;
    var j := Get(src, k);
    NoRecordFromUndef();
    match k
    case Author =>
      AuthorField(j);
      AuthorField(NormalizeAuthor(j));
      AuthorIsAuthor(j);
      if IsAuthor(NormalizeAuthor(j)) { AuthorIsFixed(NormalizeAuthor(j)); }
      if IsAuthor(j) { AuthorIsFixed(j); }
    case Nutrition =>
      NutritionField(j);
      NutritionField(NormalizeNutrition(j));
      NutritionResult(j);
      if IsNutrition(NormalizeNutrition(j)) { NutritionIsAccepted(NormalizeNutrition(j), OptionalText); }
    case AggregateRating =>
      RatingField(j);
      RatingField(NormalizeRating(j));
      RatingResult(j);
      RatingResult(NormalizeRating(j));
  }

  lemma {:induction false} NoRecordFromUndef()
    ensures NormalizeAuthor(Undef) == Undef && NormalizeNutrition(Undef) == Undef && NormalizeRating(Undef) == Undef
  {
  }

  lemma {:induction false} FieldSettles(k: Key, src: Fields)
    requires k in INPUT
    ensures Settles(k, src)
  {
    hide Settles;
    if k in TEXT_KEYS { TextSettles(k, src); }
    else if k in {Key.Servings, Key.PrepTimeMin, Key.CookTimeMin, Key.TotalTimeMin} { NumberSettles(k, src); }
    else if k in {Key.AtType, Key.RecipeYield} { PlainSettles(k, src); }
    else if k in {Key.Image, Key.RecipeIngredient} { ListsSettle(k, src); }
    else if k in {Key.Difficulty, Key.Budget} { EnumSettles(k, src); }
    else if k in {Key.Categories, Key.Attributes} { KeysSettle(k, src); }
    else if k in {Key.Ingredients, Key.Instructions, Key.RecipeInstructions} { RecordsSettle(k, src); }
    else { ObjectsSettle(k, src); }
  }

  /** A property is absent, or it has a value of its kind. */
  ghost predicate Typed(k: Key, j: Json) { j.Undef? || IsField(k, j) }

  lemma {:induction false} FieldIsPresent(k: Key, j: Json)
    requires IsField(k, j)
    ensures !j.Undef? && !j.Null?
    ensures Kept(k, j)
  {
    hide IsNutrition, IsAuthor, IsRating, EnumList, CleanList, IsListOf, TEXT_KEYS;
    if k in TEXT_KEYS || k == Key.Image || k == Key.RecipeYield {
      assert IsCleanStr(j) ==> Truthy(j);
    } else {
      ValuesAreTruthy(j);
    }
  }

  lemma {:induction false} ValuesAreTruthy(j: Json)
    ensures IsOneOf(DIFFICULTIES, j) || IsOneOf(BUDGETS, j) ==> j.Str? && j.text != ""
    ensures IsNutrition(j) || IsAuthor(j) || IsRating(j) ==> j.Obj?
    ensures IsListOf(IsIngredient, j) || IsListOf(IsInstruction, j) ==> j.Arr?
  {
  }

  // ---------------------------------------------------------------- derived properties

  lemma {:induction false} CoalesceTyped(k: Key, a: Json, b: Json)
    requires Typed(k, a) && Typed(k, b)
    ensures Typed(k, Coalesce(a, b))
    ensures Coalesce(a, b) == if a.Undef? then b else a
  {
    hide IsField;
    if IsField(k, a) { FieldIsPresent(k, a); }
  }

  lemma {:induction false} MinutesTyped(k: Key, n: Option<int>)
    requires k in {Key.PrepTimeMin, Key.CookTimeMin, Key.TotalTimeMin} && (n.Some? ==> n.value >= 0)
    ensures Typed(k, OfInt(n))
  {
  }

  lemma {:induction false} ServingsTyped(j: Json)
    ensures Typed(Key.Servings, DeriveServings(j))
  {
    hide RoundedPositive, MatchLeadingYield;
    IntegersAreInRange(j);
    if j.Str? && MatchLeadingYield(j.text).Some? {
      IntegersAreInRange(Str(MatchLeadingYield(j.text).value.0));
    }
  }

  lemma {:induction false} LabelTyped(explicit: Json, recipeYield: Json)
    requires Typed(Key.YieldUnitLabel, explicit) && Typed(Key.RecipeYield, recipeYield)
    ensures Typed(Key.YieldUnitLabel, DeriveYieldLabel(explicit, recipeYield))
    ensures DeriveYieldLabel(explicit, recipeYield).Undef? <==> explicit.Undef? && !recipeYield.Str?
    ensures !explicit.Undef? ==> DeriveYieldLabel(explicit, recipeYield) == explicit
  {
    hide MatchLeadingYield, ToNonEmptyString, IsCleanStr;
    if recipeYield.Str? {
      var m := MatchLeadingYield(recipeYield.text);
      if m.Some? && m.value.1.Some? { CleanStringEntry(Str(m.value.1.value)); }
    }
    if IsCleanStr(explicit) { CleanStrHasText(explicit); }
  }

  lemma {:induction false} TotalTyped(prep: Json, cook: Json)
    requires Typed(Key.PrepTimeMin, prep) && Typed(Key.CookTimeMin, cook)
    ensures Typed(Key.TotalTimeMin, DeriveTotal(prep, cook))
    ensures DeriveTotal(prep, cook).Undef? <==> prep.Undef? && cook.Undef?
  {
    if prep.Num? && cook.Num? {
      SumIsInteger(prep.num, cook.num);
    }
  }

  lemma {:induction false} SumIsInteger(a: real, b: real)
    requires IsInteger(a) && IsInteger(b)
    ensures IsInteger(a + b)
  {
    assert a + b == (a.Floor + b.Floor) as real;
  }

  lemma {:induction false} FieldTyped(k: Key, src: Fields)
    requires k in INPUT
    ensures Typed(k, FieldValue(k, src))
  {
    hide IsField, ParseField;
    FieldSettles(k, src);
  }

  lemma {:induction false} OutputTyped(k: Key, src: Fields)
    requires k in OUTPUT
    ensures Typed(k, OutputValue(k, src))
  {
    hide Typed, ParseField, FieldValue, NormalizeMinutes, DeriveServings, DeriveYieldLabel, EntryList, DeriveTotal,
      Coalesce, Minutes;
    FieldTyped(k, src);
    match k
    case Instructions =>
      FieldTyped(Key.RecipeInstructions, src);
      InstructionKeysAlike(FieldValue(Key.RecipeInstructions, src));
      CoalesceTyped(k, FieldValue(k, src), FieldValue(Key.RecipeInstructions, src));
    case Ingredients =>
      IngredientsTyped(FieldValue(Key.RecipeIngredient, src));
      CoalesceTyped(k, FieldValue(k, src), EntryList(IngredientEntry, FieldValue(Key.RecipeIngredient, src)));
    case Servings =>
      ServingsTyped(FieldValue(Key.RecipeYield, src));
      CoalesceTyped(k, FieldValue(k, src), DeriveServings(FieldValue(Key.RecipeYield, src)));
    case YieldUnitLabel =>
      FieldTyped(Key.RecipeYield, src);
      LabelTyped(FieldValue(k, src), FieldValue(Key.RecipeYield, src));
    case PrepTimeMin => TimeTyped(k, Key.PrepTime, src);
    case CookTimeMin => TimeTyped(k, Key.CookTime, src);
    case TotalTimeMin => TotalOutputTyped(src);
    case _ =>
  }

  lemma {:induction false} TotalOutputTyped(src: Fields)
    ensures Typed(Key.TotalTimeMin, OutputValue(Key.TotalTimeMin, src))
  {
    hide Typed, ParseField, FieldValue, NormalizeMinutes, DeriveTotal, Coalesce, Minutes;
    FieldTyped(Key.PrepTimeMin, src); FieldTyped(Key.CookTimeMin, src); FieldTyped(Key.TotalTimeMin, src);
    TimeTyped(Key.PrepTimeMin, Key.PrepTime, src);
    TimeTyped(Key.CookTimeMin, Key.CookTime, src);
    TimeTyped(Key.TotalTimeMin, Key.TotalTime, src);
    var prep, cook := Minutes(Key.PrepTimeMin, Key.PrepTime, src), Minutes(Key.CookTimeMin, Key.CookTime, src);
    TotalTyped(prep, cook);
    CoalesceTyped(Key.TotalTimeMin, Minutes(Key.TotalTimeMin, Key.TotalTime, src), DeriveTotal(prep, cook));
  }

  lemma {:induction false} InstructionKeysAlike(j: Json)
    ensures Typed(Key.RecipeInstructions, j) <==> Typed(Key.Instructions, j)
  {
  }

  lemma {:induction false} IngredientsTyped(j: Json)
    ensures Typed(Key.Ingredients, EntryList(IngredientEntry, j))
  {
    hide EntryList, ParseList;
    IngredientListResult(j);
  }

  lemma {:induction false} TimeTyped(minutesKey: Key, textKey: Key, src: Fields)
    requires minutesKey in {Key.PrepTimeMin, Key.CookTimeMin, Key.TotalTimeMin}
    requires Typed(minutesKey, FieldValue(minutesKey, src))
    ensures Typed(minutesKey, Minutes(minutesKey, textKey, src))
    ensures Minutes(minutesKey, textKey, src) ==
      if FieldValue(minutesKey, src).Undef? then OfInt(NormalizeMinutes(FieldValue(textKey, src)))
      else FieldValue(minutesKey, src)
  {
    hide IsField, NormalizeMinutes, ParseField;
    MinutesNonNegative(FieldValue(textKey, src));
    MinutesTyped(minutesKey, NormalizeMinutes(FieldValue(textKey, src)));
    CoalesceTyped(minutesKey, FieldValue(minutesKey, src), OfInt(NormalizeMinutes(FieldValue(textKey, src))));
  }

  lemma {:induction false} AssembledGet(keys: set<Key>, src: Fields)
    requires forall k :: k in keys ==> Typed(k, OutputValue(k, src))
    ensures forall k :: k in keys ==> Get(Assemble(keys, src), k) == OutputValue(k, src)
    ensures forall k :: k in Assemble(keys, src) <==> k in keys && !OutputValue(k, src).Undef?
  {
    hide OutputValue, IsField, Kept;
    forall k | k in keys ensures Kept(k, OutputValue(k, src)) <==> !OutputValue(k, src).Undef? {
      if Typed(k, OutputValue(k, src)) && !OutputValue(k, src).Undef? { FieldIsPresent(k, OutputValue(k, src)); }
      UndefIsNotKept(k);
    }
  }

  lemma {:induction false} UndefIsNotKept(k: Key)
    ensures !Kept(k, Undef)
  {
  }

  // ---------------------------------------------------------------- main results

  /**
   * The schema accepts every value and yields a typed record from which nothing more can be derived.
   */
  lemma {:induction false} SchemaIsTotal(value: Json)
    ensures RecipeJsonLdSchema(value).Ok?
    ensures NormalizeRecipeJsonLd(value) == RecipeJsonLdSchema(value).value
    ensures IsRecipeRecord(NormalizeRecipeJsonLd(value))
  {
    hide ParseField, IsField, Assemble, OutputValue, Closed;
    var src := if value.Obj? then value.fields else map[];
    forall k | k in INPUT ensures ParseField(k, Get(src, k)).Ok? {
      FieldSettles(k, src);
    }
    forall k | k in OUTPUT ensures Typed(k, OutputValue(k, src)) {
      OutputTyped(k, src);
    }
    AssembledGet(OUTPUT, src);
    var out := Assemble(OUTPUT, src);
    forall k | k in out ensures IsField(k, out[k]) {
      assert Typed(k, OutputValue(k, src));
      assert Get(out, k) == OutputValue(k, src);
    }
    OutputIsClosed(src, out);
  }

  lemma {:induction false} OutputIsClosed(src: Fields, out: Fields)
    requires forall k :: k in OUTPUT ==> Get(out, k) == OutputValue(k, src)
    requires forall k :: k in out <==> k in OUTPUT && !OutputValue(k, src).Undef?
    ensures Closed(out)
  {
    hide ParseField, OutputValue, NormalizeMinutes, DeriveServings, FieldValue, OUTPUT;
    assert {Key.Servings, Key.YieldUnitLabel, Key.PrepTimeMin, Key.CookTimeMin, Key.TotalTimeMin, Key.Ingredients,
      Key.RecipeYield, Key.PrepTime, Key.CookTime, Key.TotalTime, Key.RecipeIngredient} <= OUTPUT
    by { SourcesAreOutput(); }
    SourcesAreCopied(src);
    YieldIsClosed(src);
    TimesAreClosed(src);
    IngredientsAreClosed(src);
  }

  lemma {:induction false} SourcesAreOutput()
    ensures {Key.Servings, Key.YieldUnitLabel, Key.PrepTimeMin, Key.CookTimeMin, Key.TotalTimeMin, Key.Ingredients,
      Key.RecipeYield, Key.PrepTime, Key.CookTime, Key.TotalTime, Key.RecipeIngredient} <= OUTPUT
  {
  }

  lemma {:induction false} SourcesAreCopied(src: Fields)
    ensures forall k :: k in {Key.RecipeYield, Key.PrepTime, Key.CookTime, Key.TotalTime, Key.RecipeIngredient} ==>
      OutputValue(k, src) == FieldValue(k, src)
  {
  }

  lemma {:induction false} YieldIsClosed(src: Fields)
    ensures OutputValue(Key.Servings, src).Undef? ==> DeriveServings(FieldValue(Key.RecipeYield, src)).Undef?
    ensures OutputValue(Key.YieldUnitLabel, src).Undef? ==> !FieldValue(Key.RecipeYield, src).Str?
  {
    hide FieldValue, DeriveServings, DeriveYieldLabel, Typed;
    FieldTyped(Key.Servings, src); FieldTyped(Key.RecipeYield, src); FieldTyped(Key.YieldUnitLabel, src);
    ServingsTyped(FieldValue(Key.RecipeYield, src));
    CoalesceTyped(Key.Servings, FieldValue(Key.Servings, src), DeriveServings(FieldValue(Key.RecipeYield, src)));
    LabelTyped(FieldValue(Key.YieldUnitLabel, src), FieldValue(Key.RecipeYield, src));
  }

  lemma {:induction false} TimeIsClosed(minutesKey: Key, textKey: Key, src: Fields)
    requires minutesKey in {Key.PrepTimeMin, Key.CookTimeMin, Key.TotalTimeMin}
    ensures Minutes(minutesKey, textKey, src).Undef? ==> NormalizeMinutes(FieldValue(textKey, src)).None?
  {
    hide FieldValue, NormalizeMinutes, Typed;
    FieldTyped(minutesKey, src);
    TimeTyped(minutesKey, textKey, src);
  }

  lemma {:induction false} TimesAreClosed(src: Fields)
    ensures OutputValue(Key.PrepTimeMin, src).Undef? ==> NormalizeMinutes(FieldValue(Key.PrepTime, src)).None?
    ensures OutputValue(Key.CookTimeMin, src).Undef? ==> NormalizeMinutes(FieldValue(Key.CookTime, src)).None?
    ensures OutputValue(Key.TotalTimeMin, src).Undef? ==>
      && NormalizeMinutes(FieldValue(Key.TotalTime, src)).None?
      && OutputValue(Key.PrepTimeMin, src).Undef? && OutputValue(Key.CookTimeMin, src).Undef?
  {
    hide FieldValue, NormalizeMinutes, Minutes, Typed, IsField, DeriveTotal, TEXT_KEYS;
    TimeIsClosed(Key.PrepTimeMin, Key.PrepTime, src);
    TimeIsClosed(Key.CookTimeMin, Key.CookTime, src);
    TimeIsClosed(Key.TotalTimeMin, Key.TotalTime, src);
    FieldTyped(Key.PrepTimeMin, src); FieldTyped(Key.CookTimeMin, src); FieldTyped(Key.TotalTimeMin, src);
    TimeTyped(Key.PrepTimeMin, Key.PrepTime, src);
    TimeTyped(Key.CookTimeMin, Key.CookTime, src);
    TimeTyped(Key.TotalTimeMin, Key.TotalTime, src);
    var prep, cook := Minutes(Key.PrepTimeMin, Key.PrepTime, src), Minutes(Key.CookTimeMin, Key.CookTime, src);
    TotalTyped(prep, cook);
    CoalesceTyped(Key.TotalTimeMin, Minutes(Key.TotalTimeMin, Key.TotalTime, src), DeriveTotal(prep, cook));
  }

  lemma {:induction false} IngredientsAreClosed(src: Fields)
    ensures OutputValue(Key.Ingredients, src).Undef? ==> FieldValue(Key.RecipeIngredient, src).Undef?
  {
    hide FieldValue, EntryList, IsField;
    FieldTyped(Key.Ingredients, src); FieldTyped(Key.RecipeIngredient, src);
    IngredientsTyped(FieldValue(Key.RecipeIngredient, src));
    CoalesceTyped(Key.Ingredients, FieldValue(Key.Ingredients, src),
      EntryList(IngredientEntry, FieldValue(Key.RecipeIngredient, src)));
    LinesGiveIngredients(FieldValue(Key.RecipeIngredient, src));
  }

  /** A usable list of lines always yields ingredients. */
  lemma {:induction false} LinesGiveIngredients(j: Json)
    ensures IsField(Key.RecipeIngredient, j) ==> !EntryList(IngredientEntry, j).Undef?
  {
    hide IngredientRecord, LineRecord, ReadLine;
    if IsField(Key.RecipeIngredient, j) {
      var texts := Texts(j.items);
      assert CleanText(texts[0]);
      TokensConserved(texts[0], 0);
      CleanIsNotBlank(texts[0]);
      assert j.items[0] == Str(texts[0]);
      assert IngredientEntry(j.items[0], 0) != [];
    }
  }

  lemma {:induction false} CleanIsNotBlank(s: string)
    requires CleanText(s)
    ensures !AllSpace(s)
  {
  }

  /** A value is left unchanged exactly when it is such a record. */
  lemma {:induction false} FixedIffRecord(value: Json)
    ensures NormalizeRecipeJsonLd(value) == value <==> IsRecipeRecord(value)
  {
    hide ParseField, IsField, Assemble, OutputValue, Closed;
    SchemaIsTotal(value);
    if IsRecipeRecord(value) {
      var src := value.fields;
      forall k | k in OUTPUT ensures OutputValue(k, src) == Get(src, k) && Typed(k, OutputValue(k, src)) {
        OutputIsFixed(k, src);
        OutputTyped(k, src);
      }
      AssembledSame(OUTPUT, src);
    }
  }

  lemma {:induction false} AssembledSame(keys: set<Key>, src: Fields)
    requires src.Keys <= keys
    requires forall k :: k in keys ==> OutputValue(k, src) == Get(src, k) && Typed(k, OutputValue(k, src))
    requires forall k :: k in src ==> IsField(k, src[k])
    ensures Assemble(keys, src) == src
  {
    hide IsField, OutputValue, Assemble, Kept;
    AssembledGet(keys, src);
    var out := Assemble(keys, src);
    forall k | k in src ensures k in out && out[k] == src[k] {
      FieldIsPresent(k, src[k]);
      assert Get(out, k) == OutputValue(k, src);
    }
    forall k | k in out ensures k in src {
      assert Get(src, k) == OutputValue(k, src);
    }
  }

  lemma {:induction false} FieldIsFixed(k: Key, src: Fields)
    requires k in INPUT && (k in src ==> IsField(k, src[k]))
    ensures FieldValue(k, src) == Get(src, k)
    ensures Typed(k, Get(src, k))
  {
    hide ParseField, IsField;
    FieldSettles(k, src);
  }

  lemma {:induction false} OutputIsFixed(k: Key, src: Fields)
    requires k in OUTPUT && IsRecipeRecord(Obj(src))
    ensures OutputValue(k, src) == Get(src, k)
  {
    hide Typed, ParseField, FieldValue, NormalizeMinutes, DeriveServings, DeriveYieldLabel, EntryList, DeriveTotal,
      Coalesce, Minutes, IsField, Closed;
    match k
    case Instructions => InstructionsAreFixed(src);
    case Ingredients => IngredientsAreFixed(src);
    case Servings => YieldIsFixed(src);
    case YieldUnitLabel => YieldIsFixed(src);
    case PrepTimeMin => TimesAreFixed(src);
    case CookTimeMin => TimesAreFixed(src);
    case TotalTimeMin => TimesAreFixed(src);
    case _ => FieldIsFixed(k, src);
  }

  lemma {:induction false} InstructionsAreFixed(src: Fields)
    requires IsRecipeRecord(Obj(src))
    ensures OutputValue(Key.Instructions, src) == Get(src, Key.Instructions)
  {
    hide Typed, ParseField, FieldValue, Coalesce, IsField, Closed;
    FieldIsFixed(Key.Instructions, src); FieldIsFixed(Key.RecipeInstructions, src);
    InstructionKeysAlike(Get(src, Key.RecipeInstructions));
    CoalesceTyped(Key.Instructions, Get(src, Key.Instructions), FieldValue(Key.RecipeInstructions, src));
  }

  lemma {:induction false} IngredientsAreFixed(src: Fields)
    requires IsRecipeRecord(Obj(src))
    ensures OutputValue(Key.Ingredients, src) == Get(src, Key.Ingredients)
  {
    hide Typed, ParseField, FieldValue, EntryList, Coalesce, IsField;
    FieldIsFixed(Key.Ingredients, src); FieldIsFixed(Key.RecipeIngredient, src);
    var derived := EntryList(IngredientEntry, Get(src, Key.RecipeIngredient));
    IngredientsTyped(Get(src, Key.RecipeIngredient));
    CoalesceTyped(Key.Ingredients, Get(src, Key.Ingredients), derived);
    NoLinesNoIngredients();
    if Key.Ingredients in src { FieldIsPresent(Key.Ingredients, src[Key.Ingredients]); }
  }

  lemma {:induction false} YieldIsFixed(src: Fields)
    requires IsRecipeRecord(Obj(src))
    ensures OutputValue(Key.Servings, src) == Get(src, Key.Servings)
    ensures OutputValue(Key.YieldUnitLabel, src) == Get(src, Key.YieldUnitLabel)
  {
    hide Typed, ParseField, FieldValue, DeriveServings, DeriveYieldLabel, Coalesce, IsField;
    FieldIsFixed(Key.Servings, src); FieldIsFixed(Key.YieldUnitLabel, src); FieldIsFixed(Key.RecipeYield, src);
    ServingsTyped(Get(src, Key.RecipeYield));
    CoalesceTyped(Key.Servings, Get(src, Key.Servings), DeriveServings(Get(src, Key.RecipeYield)));
    LabelTyped(Get(src, Key.YieldUnitLabel), Get(src, Key.RecipeYield));
    if Key.Servings in src { FieldIsPresent(Key.Servings, src[Key.Servings]); }
    if Key.YieldUnitLabel in src { FieldIsPresent(Key.YieldUnitLabel, src[Key.YieldUnitLabel]); }
  }

  lemma {:induction false} NoLinesNoIngredients()
    ensures EntryList(IngredientEntry, Undef) == Undef
  {
  }

  lemma {:induction false} TimeIsFixed(minutesKey: Key, textKey: Key, src: Fields)
    requires minutesKey in {Key.PrepTimeMin, Key.CookTimeMin, Key.TotalTimeMin} && textKey in TEXT_KEYS
    requires minutesKey in src ==> IsField(minutesKey, src[minutesKey])
    requires textKey in src ==> IsField(textKey, src[textKey])
    requires minutesKey !in src ==> NormalizeMinutes(Get(src, textKey)).None?
    ensures Minutes(minutesKey, textKey, src) == Get(src, minutesKey)
  {
    hide IsField, FieldValue, NormalizeMinutes, Minutes, Typed;
    FieldIsFixed(minutesKey, src); FieldIsFixed(textKey, src);
    TimeTyped(minutesKey, textKey, src);
    if minutesKey in src { FieldIsPresent(minutesKey, src[minutesKey]); }
  }

  lemma {:induction false} TimesAreFixed(src: Fields)
    requires IsRecipeRecord(Obj(src))
    ensures OutputValue(Key.PrepTimeMin, src) == Get(src, Key.PrepTimeMin)
    ensures OutputValue(Key.CookTimeMin, src) == Get(src, Key.CookTimeMin)
    ensures OutputValue(Key.TotalTimeMin, src) == Get(src, Key.TotalTimeMin)
  {
    hide IsField, FieldValue, NormalizeMinutes, Minutes, Typed, DeriveTotal;
    TimeIsFixed(Key.PrepTimeMin, Key.PrepTime, src);
    TimeIsFixed(Key.CookTimeMin, Key.CookTime, src);
    TimeIsFixed(Key.TotalTimeMin, Key.TotalTime, src);
    FieldIsFixed(Key.PrepTimeMin, src); FieldIsFixed(Key.CookTimeMin, src); FieldIsFixed(Key.TotalTimeMin, src);
    TotalTyped(Get(src, Key.PrepTimeMin), Get(src, Key.CookTimeMin));
    if Key.TotalTimeMin in src { FieldIsPresent(Key.TotalTimeMin, src[Key.TotalTimeMin]); }
  }

  /** Normalising twice is normalising once, for every value. */
  lemma {:induction false} NormalizationIsIdempotent(value: Json)
    ensures NormalizeRecipeJsonLd(NormalizeRecipeJsonLd(value)) == NormalizeRecipeJsonLd(value)
  {
    SchemaIsTotal(value);
    FixedIffRecord(NormalizeRecipeJsonLd(value));
  }
}
