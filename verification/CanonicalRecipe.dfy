/**
 * `CanonicalRecipeSchema`: any value becomes a canonical recipe record. The records that it leaves unchanged are
 * described by themselves.
 */
module CanonicalRecipe {
  import opened Text
  import opened Json
  import opened Numbers
  import opened Lists
  import opened Schemas
  import opened RecipeParts

  const INGREDIENT: Shape := IngredientShape(1)

  const INSTRUCTION: Shape := map[
    Key.TextKey := RequiredText(1), Key.Order := OrderNumber, Key.DurationMin := NonNegativeInteger]

  const AUTHOR: Shape := map[Key.Name := TrimmedText, Key.TypeKey := OneOf(AUTHOR_TYPES)]

  const OUTPUT: set<Key> := {
    Key.Name, Key.Description, Key.Servings, Key.YieldUnitLabel, Key.PrepTimeMin, Key.CookTimeMin,
    Key.Difficulty, Key.Budget, Key.Categories, Key.Attributes, Key.Ingredients, Key.Instructions,
    Key.Image, Key.Author, Key.Nutrition, Key.Keywords, Key.Cuisine}

  const INPUT: set<Key> := OUTPUT + {Key.TotalTimeMin}

  // ---------------------------------------------------------------- preprocessing

  /** The `order` of an entry: rounded when it is a number from 0 up, else the position of the entry. */
  function OrderOf(entry: Fields, position: nat): Json {
    var order := ToFiniteNumber(Coalesce(Get(entry, Key.Order), Get(entry, Key.Index)));
    if order.Some? && order.value >= 0.0 then Num(Round(order.value) as real) else Num(position as real)
  }

  function IngredientRaw(entry: Fields): Option<string> {
    FirstText([Get(entry, Key.Raw), Get(entry, Key.Line), Get(entry, Key.TextKey), Get(entry, Key.Ingredient)])
  }

  function IngredientName(entry: Fields): Option<string> {
    FirstText([Get(entry, Key.Name), Get(entry, Key.Ingredient), Get(entry, Key.Line), Get(entry, Key.TextKey),
      OfText(IngredientRaw(entry))])
  }

  function IngredientRecord(entry: Fields, position: nat): Fields
    requires IngredientName(entry).Some?
  {
    Compact(map[
      Key.Name := Str(IngredientName(entry).value),
      Key.Quantity := OfReal(ToFiniteNumber(Coalesce(Get(entry, Key.Quantity), Get(entry, Key.Amount)))),
      Key.Unit := OfText(ToNonEmptyString(Get(entry, Key.Unit))),
      Key.Note := OfText(ToNonEmptyString(Get(entry, Key.Note))),
      Key.Optional := FlagOf(Get(entry, Key.Optional)),
      Key.Order := OrderOf(entry, position),
      Key.Raw := OfText(IngredientRaw(entry))])
  }

  function IngredientEntry(entry: Json, position: nat): seq<Json> {
    if entry.Str? then
      var raw := ToNonEmptyString(entry);
      if raw.None? then []
      else [Obj(map[Key.Name := Str(raw.value), Key.Order := Num(position as real), Key.Raw := Str(raw.value)])]
    else if entry.Obj? && IngredientName(entry.fields).Some? then [Obj(IngredientRecord(entry.fields, position))]
    else []
  }

  function InstructionText(entry: Fields): Option<string> {
    FirstText([Get(entry, Key.TextKey), Get(entry, Key.Name)])
  }

  function InstructionDuration(entry: Fields): Json {
    var duration := ToFiniteNumber(Coalesce(Get(entry, Key.DurationMin), Get(entry, Key.Duration)));
    if duration.Some? && duration.value >= 0.0 then Num(Round(duration.value) as real) else Undef
  }

  function InstructionRecord(entry: Fields, position: nat): Fields
    requires InstructionText(entry).Some?
  {
    Compact(map[
      Key.TextKey := Str(InstructionText(entry).value),
      Key.DurationMin := InstructionDuration(entry),
      Key.Order := OrderOf(entry, position)])
  }

  function InstructionEntry(entry: Json, position: nat): seq<Json> {
    if entry.Str? then
      var text := ToNonEmptyString(entry);
      if text.None? then []
      else [Obj(map[Key.TextKey := Str(text.value), Key.Order := Num(position as real)])]
    else if entry.Obj? && InstructionText(entry.fields).Some? then [Obj(InstructionRecord(entry.fields, position))]
    else []
  }

  function AuthorType(fields: Fields): Json {
    var t, at := Get(fields, Key.TypeKey), Get(fields, Key.AtType);
    if t.Str? && t.text in AUTHOR_TYPES then t
    else if at.Str? && at.text in AUTHOR_TYPES then at
    else Undef
  }

  function NormalizeAuthor(value: Json): Json {
    var plain := ToNonEmptyString(value);
    if plain.Some? then Obj(map[Key.Name := Str(plain.value)])
    else if !value.Obj? then Undef
    else
      var name := OfText(ToNonEmptyString(Get(value.fields, Key.Name)));
      var kind := AuthorType(value.fields);
      if name.Undef? && kind.Undef? then Undef else Obj(Compact(map[Key.Name := name, Key.TypeKey := kind]))
  }

  // ---------------------------------------------------------------- the schema

  /** One property of the input schema: preprocessing, then the inner schema. */
  function ParseField(k: Key, j: Json): Result<Json> {
    match k
    case Name => ParseRule(TrimmedText, j)
    case Description => ParseRule(TrimmedText, j)
    case YieldUnitLabel => ParseRule(TrimmedText, j)
    case Cuisine => ParseRule(TrimmedText, j)
    case Servings => ParseRule(PositiveInteger, j)
    case PrepTimeMin => ParseRule(NonNegativeInteger, j)
    case CookTimeMin => ParseRule(NonNegativeInteger, j)
    case TotalTimeMin => ParseRule(NonNegativeInteger, j)
    case Difficulty => ParseRule(OneOf(DIFFICULTIES), OfText(NormalizeEnumValue(j, DIFFICULTIES)))
    case Budget => ParseRule(OneOf(BUDGETS), OfText(NormalizeEnumValue(j, BUDGETS)))
    case Categories => ParseKeys(RECIPE_CATEGORIES, OfTexts(NormalizeEnumValues(j, RECIPE_CATEGORIES)))
    case Attributes => ParseKeys(RECIPE_ATTRIBUTES, OfTexts(NormalizeEnumValues(j, RECIPE_ATTRIBUTES)))
    case Ingredients => ParseList(INGREDIENT, EntryList(IngredientEntry, j))
    case Instructions => ParseList(INSTRUCTION, EntryList(InstructionEntry, j))
    case Image => ParseTextOrTexts(NormalizeImage(j))
    case Author => ParseOptionalObject(AUTHOR, NormalizeAuthor(j))
    case Nutrition => ParseOptionalObject(NutritionShape(TrimmedText), NormalizeNutrition(j))
    case Keywords => ParseTexts(OfTexts(NormalizeStringList(j)))
    case _ => Ok(Undef)
  }

  function FieldValue(k: Key, j: Json): Json {
    var r := ParseField(k, j);
    if r.Ok? then r.value else Undef
  }

  /** Numbers are kept unless `undefined`; every other property is kept when it is truthy. */
  predicate Kept(k: Key, j: Json) {
    if k in {Key.Servings, Key.PrepTimeMin, Key.CookTimeMin} then !j.Undef? else Truthy(j)
  }

  function OutputValue(k: Key, src: Fields): Json {
    if k == Key.CookTimeMin then
      Coalesce(FieldValue(k, Get(src, k)), FieldValue(Key.TotalTimeMin, Get(src, Key.TotalTimeMin)))
    else FieldValue(k, Get(src, k))
  }

  function CanonicalRecipeSchema(value: Json): Result<Json> {
    var src := if value.Obj? then value.fields else map[];
    if exists k :: k in INPUT && ParseField(k, Get(src, k)).Err? then Err
    else Ok(Obj(Assemble(OUTPUT, src)))
  }

  /** The transform: the kept properties among `keys`. */
  function Assemble(keys: set<Key>, src: Fields): Fields {
    map k | k in keys && Kept(k, OutputValue(k, src)) :: OutputValue(k, src)
  }

  function NormalizeCanonicalRecipe(value: Json): Json {
    var parsed := CanonicalRecipeSchema(value);
    if parsed.Ok? then parsed.value else Obj(map[])
  }

  // ---------------------------------------------------------------- canonical records, by themselves

  predicate IsInstruction(j: Json) {
    && j.Obj? && {Key.TextKey, Key.Order} <= j.fields.Keys <= INSTRUCTION.Keys
    && IsCleanStr(j.fields[Key.TextKey]) && IntegerFrom(j.fields[Key.Order], 0)
    && (Key.DurationMin in j.fields ==> IntegerFrom(j.fields[Key.DurationMin], 0))
  }

  predicate IsAuthor(j: Json) {
    && j.Obj? && j.fields != map[] && j.fields.Keys <= AUTHOR.Keys
    && CleanOrAbsent(j.fields, Key.Name)
    && (Key.TypeKey in j.fields ==> j.fields[Key.TypeKey].Str? && j.fields[Key.TypeKey].text in AUTHOR_TYPES)
  }

  /** The values a property of a canonical record may have. */
  ghost predicate IsField(k: Key, j: Json) {
    match k
    case Name => IsCleanStr(j)
    case Description => IsCleanStr(j)
    case YieldUnitLabel => IsCleanStr(j)
    case Cuisine => IsCleanStr(j)
    case Servings => IntegerFrom(j, 1)
    case PrepTimeMin => IntegerFrom(j, 0)
    case CookTimeMin => IntegerFrom(j, 0)
    case TotalTimeMin => IntegerFrom(j, 0)
    case Difficulty => IsOneOf(DIFFICULTIES, j)
    case Budget => IsOneOf(BUDGETS, j)
    case Categories => IsKeys(RECIPE_CATEGORIES, j)
    case Attributes => IsKeys(RECIPE_ATTRIBUTES, j)
    case Ingredients => IsListOf(IsIngredient, j)
    case Instructions => IsListOf(IsInstruction, j)
    case Image => IsCleanStr(j) || IsTexts(j)
    case Author => IsAuthor(j)
    case Nutrition => IsNutrition(j)
    case Keywords => IsTexts(j)
    case _ => false
  }

  ghost predicate IsCanonical(j: Json) {
    && j.Obj? && j.fields.Keys <= OUTPUT
    && forall k :: k in j.fields ==> IsField(k, j.fields[k])
  }

  // ---------------------------------------------------------------- list entries

  lemma {:induction false} OrderIsInteger(entry: Fields, position: nat)
    ensures IntegerFrom(OrderOf(entry, position), 0)
    ensures Key.Order in entry && IntegerFrom(entry[Key.Order], 0) ==> OrderOf(entry, position) == entry[Key.Order]
  {
    if Key.Order in entry && IntegerFrom(entry[Key.Order], 0) {
      RoundInteger(entry[Key.Order].num.Floor);
    }
  }

  lemma {:induction false} RecordIsIngredient(entry: Fields, position: nat)
    requires IngredientName(entry).Some?
    ensures IsIngredient(Obj(IngredientRecord(entry, position)))
  {
    hide ToNonEmptyString, FirstText, OrderOf, IsCleanStr, ToFiniteNumber;
    CleanStrings(entry, Key.Unit); CleanStrings(entry, Key.Note);
    OrderIsInteger(entry, position);
    FirstIsClean([Get(entry, Key.Raw), Get(entry, Key.Line), Get(entry, Key.TextKey), Get(entry, Key.Ingredient)]);
    FirstIsClean([Get(entry, Key.Name), Get(entry, Key.Ingredient), Get(entry, Key.Line), Get(entry, Key.TextKey),
      OfText(IngredientRaw(entry))]);
  }

  lemma {:induction false} IngredientIsFixed(j: Json, position: nat)
    requires IsIngredient(j)
    ensures IngredientEntry(j, position) == [j]
    ensures ParseObject(INGREDIENT, j) == Ok(j)
  {
    var f := j.fields;
    IngredientNamesAreFixed(f);
    IngredientRecordIsFixed(f, position);
    IngredientIsAccepted(j, 1);
  }

  lemma {:induction false} IngredientNamesAreFixed(f: Fields)
    requires IsIngredient(Obj(f))
    ensures IngredientName(f) == Some(f[Key.Name].text) && OfText(IngredientRaw(f)) == Get(f, Key.Raw)
  {
    hide FirstText;
    var raws := [Get(f, Key.Raw), Get(f, Key.Line), Get(f, Key.TextKey), Get(f, Key.Ingredient)];
    if Key.Raw in f { HeadWins(raws); } else { NothingUsable(raws); }
    HeadWins([Get(f, Key.Name), Get(f, Key.Ingredient), Get(f, Key.Line), Get(f, Key.TextKey),
      OfText(IngredientRaw(f))]);
  }

  lemma {:induction false} IngredientRecordIsFixed(f: Fields, position: nat)
    requires IsIngredient(Obj(f)) && IngredientName(f) == Some(f[Key.Name].text)
    requires OfText(IngredientRaw(f)) == Get(f, Key.Raw)
    ensures IngredientRecord(f, position) == f
  {
    hide FirstText, ToNonEmptyString, OrderOf, IngredientName, IngredientRaw, ToFiniteNumber, IsCleanStr,
      FlagOf, Coalesce, OfReal, OfText;
    IngredientValuesAreFixed(f);
    OrderIsInteger(f, position);
    IngredientHasNoUndef(f);
    var record := IngredientRecord(f, position);
    assert record.Keys <= INGREDIENT_KEYS && f.Keys <= INGREDIENT_KEYS;
    forall k | k in INGREDIENT_KEYS ensures Get(record, k) == Get(f, k) {
      match k
      case Name => case Quantity => case Unit => case Note => case Optional => case Order => case Raw =>
    }
    SameFields(record, f, INGREDIENT_KEYS);
  }

  lemma {:induction false} EntryIsIngredient(j: Json, position: nat)
    ensures forall i :: 0 <= i < |IngredientEntry(j, position)| ==> IsIngredient(IngredientEntry(j, position)[i])
  {
    hide IsCleanStr;
    if j.Str? {
      CleanStringEntry(j);
    } else if j.Obj? && IngredientName(j.fields).Some? {
      RecordIsIngredient(j.fields, position);
    }
  }

  lemma {:induction false} IngredientListResult(j: Json)
    ensures var v := EntryList(IngredientEntry, j);
      && ParseList(INGREDIENT, v) == Ok(v)
      && (v.Undef? || IsListOf(IsIngredient, v))
      && (IsListOf(IsIngredient, j) ==> v == j)
  {
    hide IngredientEntry, IsIngredient, EntryList, ParseList;
    forall j, p, i | 0 <= i < |IngredientEntry(j, p)| ensures IsIngredient(IngredientEntry(j, p)[i]) {
      EntryIsIngredient(j, p);
    }
    forall j, p | IsIngredient(j) ensures IngredientEntry(j, p) == [j] {
      IngredientIsFixed(j, p);
    }
    forall j | IsIngredient(j) ensures ParseObject(INGREDIENT, j) == Ok(j) {
      IngredientIsFixed(j, 0);
    }
    EntryListResult(IngredientEntry, IsIngredient, INGREDIENT, j);
  }

  lemma {:induction false} EntryIsInstruction(j: Json, position: nat)
    ensures forall i :: 0 <= i < |InstructionEntry(j, position)| ==> IsInstruction(InstructionEntry(j, position)[i])
  {
    hide IsCleanStr, FirstText;
    if j.Str? {
      CleanStringEntry(j);
    } else if j.Obj? && InstructionText(j.fields).Some? {
      FirstIsClean([Get(j.fields, Key.TextKey), Get(j.fields, Key.Name)]);
      OrderIsInteger(j.fields, position);
    }
  }

  lemma {:induction false} InstructionIsFixed(j: Json, position: nat)
    requires IsInstruction(j)
    ensures InstructionEntry(j, position) == [j]
    ensures ParseObject(INSTRUCTION, j) == Ok(j)
  {
    hide FirstText, ToNonEmptyString, OrderOf;
    var f := j.fields;
    HeadWins([Get(f, Key.TextKey), Get(f, Key.Name)]);
    OrderIsInteger(f, position);
    if Key.DurationMin in f { IntegersAreFixed(f[Key.DurationMin]); }
    SameFields(InstructionRecord(f, position), f, INSTRUCTION.Keys);
    CleanStrHasText(f[Key.TextKey]);
    ObjectIsFixed(INSTRUCTION, f);
  }

  lemma {:induction false} InstructionListResult(j: Json)
    ensures var v := EntryList(InstructionEntry, j);
      && ParseList(INSTRUCTION, v) == Ok(v)
      && (v.Undef? || IsListOf(IsInstruction, v))
      && (IsListOf(IsInstruction, j) ==> v == j)
  {
    hide InstructionEntry, IsInstruction, EntryList, ParseList;
    forall j, p, i | 0 <= i < |InstructionEntry(j, p)| ensures IsInstruction(InstructionEntry(j, p)[i]) {
      EntryIsInstruction(j, p);
    }
    forall j, p | IsInstruction(j) ensures InstructionEntry(j, p) == [j] {
      InstructionIsFixed(j, p);
    }
    forall j | IsInstruction(j) ensures ParseObject(INSTRUCTION, j) == Ok(j) {
      InstructionIsFixed(j, 0);
    }
    EntryListResult(InstructionEntry, IsInstruction, INSTRUCTION, j);
  }

  lemma {:induction false} AuthorIsAuthor(j: Json)
    ensures NormalizeAuthor(j).Undef? || IsAuthor(NormalizeAuthor(j))
  {
    hide ToNonEmptyString, IsCleanStr;
    var v := NormalizeAuthor(j);
    CleanStringEntry(j);
    if j.Obj? { CleanStrings(j.fields, Key.Name); }
    assert v.Obj? ==> Key.Name in v.fields || Key.TypeKey in v.fields;
  }

  lemma {:induction false} AuthorIsFixed(j: Json)
    requires IsAuthor(j)
    ensures NormalizeAuthor(j) == j
    ensures ParseOptionalObject(AUTHOR, j) == Ok(j)
  {
    hide IsCleanStr;
    CleanStrings(j.fields, Key.Name);
    NameIsText(j.fields);
    var name, kind := OfText(ToNonEmptyString(Get(j.fields, Key.Name))), AuthorType(j.fields);
    assert name == Get(j.fields, Key.Name) && kind == Get(j.fields, Key.TypeKey);
    assert j.fields.Keys <= {Key.Name, Key.TypeKey};
    assert exists k :: k in j.fields;
    SameFields(Compact(map[Key.Name := name, Key.TypeKey := kind]), j.fields, AUTHOR.Keys);
    ObjectIsFixed(AUTHOR, j.fields);
  }

  // ---------------------------------------------------------------- one property at a time

  /** Parsing `j` for property `k` succeeds with a canonical value or nothing; canonical values stay. */
  ghost predicate Settles(k: Key, j: Json) {
    && ParseField(k, j).Ok?
    && (FieldValue(k, j).Undef? || IsField(k, FieldValue(k, j)))
    && (IsField(k, j) ==> FieldValue(k, j) == j)
    && FieldValue(k, Undef) == Undef
  }

  lemma {:induction false} TextSettles(k: Key, j: Json)
    requires k in {Key.Name, Key.Description, Key.YieldUnitLabel, Key.Cuisine}
    ensures Settles(k, j)
  {
    hide ToNonEmptyString, IsCleanStr;
    NonEmptyStringIsClean(j);
    CleanStringEntry(j);
    NotText(Undef);
    StayClean(j);
  }

  lemma {:induction false} NumberSettles(k: Key, j: Json)
    requires k in {Key.Servings, Key.PrepTimeMin, Key.CookTimeMin, Key.TotalTimeMin}
    ensures Settles(k, j)
  {
    hide ToNonNegativeInteger, RoundedPositive;
    IntegersAreFixed(j);
    IntegersAreInRange(j);
    UndefHasNoNumber();
  }

  lemma {:induction false} EnumSettles(k: Key, j: Json)
    requires k in {Key.Difficulty, Key.Budget}
    ensures Settles(k, j)
  {
    hide NormalizeEnumValue, AllEnumText, IsOneOf;
    EnumerationsAreEnumText();
    EnumResult(if k.Difficulty? then DIFFICULTIES else BUDGETS, j);
  }

  lemma {:induction false} KeysSettle(k: Key, j: Json)
    requires k in {Key.Categories, Key.Attributes}
    ensures Settles(k, j)
  {
    hide NormalizeEnumValues, EnumText, EnumList;
    var allowed := if k.Categories? then RECIPE_CATEGORIES else RECIPE_ATTRIBUTES;
    EnumerationsAreEnumText(); CategoriesAreEnumText();
    KeysResult(allowed, j);
  }

  lemma {:induction false} ListsSettle(k: Key, j: Json)
    requires k in {Key.Image, Key.Keywords}
    ensures Settles(k, j)
  {
    hide CleanList, NormalizeStringArray, NormalizeStringList, IsCleanStr;
    StringListIsClean(j);
    TextsRoundTrip(NormalizeStringArray(j));
    TextsRoundTrip(NormalizeStringList(j));
    CleanStringEntry(j);
    StayClean(j);
    NotText(j); NotText(Undef);
    NothingFromUndef();
    if IsTexts(j) {
      CleanListIsFixed(Texts(j.items));
      StrsOfTexts(j.items);
    }
    if IsCleanStr(j) { CleanStrHasText(j); }
  }

  lemma {:induction false} RecordsSettle(k: Key, j: Json)
    requires k in {Key.Ingredients, Key.Instructions, Key.Author, Key.Nutrition}
    ensures Settles(k, j)
  {
    hide IngredientEntry, InstructionEntry, NormalizeAuthor, NormalizeNutrition, ParseObject, IsListOf, IsAuthor,
      IsNutrition;
    match k
    case Ingredients => IngredientListResult(j);
    case Instructions => InstructionListResult(j);
    case Author =>
      AuthorIsAuthor(j);
      if IsAuthor(NormalizeAuthor(j)) { AuthorIsFixed(NormalizeAuthor(j)); }
      if IsAuthor(j) { AuthorIsFixed(j); }
      NoRecordFromUndef();
    case Nutrition =>
      NutritionResult(j);
      if IsNutrition(NormalizeNutrition(j)) { NutritionIsAccepted(NormalizeNutrition(j), TrimmedText); }
      NoRecordFromUndef();
  }

  lemma {:induction false} NoRecordFromUndef()
    ensures NormalizeAuthor(Undef) == Undef && NormalizeNutrition(Undef) == Undef
  {
  }

  lemma {:induction false} FieldSettles(k: Key, j: Json)
    requires k in INPUT
    ensures Settles(k, j)
  {
    hide Settles;
    if k in {Key.Name, Key.Description, Key.YieldUnitLabel, Key.Cuisine} { TextSettles(k, j); }
    else if k in {Key.Servings, Key.PrepTimeMin, Key.CookTimeMin, Key.TotalTimeMin} { NumberSettles(k, j); }
    else if k in {Key.Difficulty, Key.Budget} { EnumSettles(k, j); }
    else if k in {Key.Categories, Key.Attributes} { KeysSettle(k, j); }
    else if k in {Key.Image, Key.Keywords} { ListsSettle(k, j); }
    else { RecordsSettle(k, j); }
  }

  // ---------------------------------------------------------------- main results

  lemma {:induction false} KeptIsPresent(k: Key, j: Json)
    ensures Kept(k, j) ==> !j.Undef?
    ensures IsField(k, j) ==> Kept(k, j) || k == Key.TotalTimeMin
  {
    hide IsNutrition, IsAuthor, EnumList, CleanList, IsListOf;
    ValuesAreTruthy(j);
  }

  lemma {:induction false} ValuesAreTruthy(j: Json)
    ensures j.Str? && (j.text in DIFFICULTIES || j.text in BUDGETS) ==> j.text != ""
    ensures IsNutrition(j) || IsAuthor(j) ==> j.Obj?
    ensures IsListOf(IsIngredient, j) || IsListOf(IsInstruction, j) ==> j.Arr?
  {
  }

  lemma {:induction false} OutputIsField(k: Key, src: Fields)
    requires Settles(k, Get(src, k)) && Settles(Key.TotalTimeMin, Get(src, Key.TotalTimeMin))
    ensures Kept(k, OutputValue(k, src)) ==> IsField(k, OutputValue(k, src))
  {
    hide ParseField, IsField;
    KeptIsPresent(k, OutputValue(k, src));
    TimesAreTimes(FieldValue(Key.TotalTimeMin, Get(src, Key.TotalTimeMin)));
  }

  lemma {:induction false} TimesAreTimes(j: Json)
    ensures IsField(Key.TotalTimeMin, j) <==> IsField(Key.CookTimeMin, j)
    ensures IsField(Key.CookTimeMin, j) ==> j.Num?
  {
  }

  lemma {:induction false} AssembledFields(keys: set<Key>, src: Fields)
    requires forall k :: k in keys ==> Settles(k, Get(src, k))
    requires Settles(Key.TotalTimeMin, Get(src, Key.TotalTimeMin))
    ensures Assemble(keys, src).Keys <= keys
    ensures forall k :: k in Assemble(keys, src) ==> IsField(k, Assemble(keys, src)[k])
  {
    hide Settles, IsField, Kept, OutputValue;
    forall k | k in Assemble(keys, src) ensures IsField(k, Assemble(keys, src)[k]) {
      OutputIsField(k, src);
    }
  }

  lemma {:induction false} OutputIsFixed(k: Key, src: Fields)
    requires k != Key.TotalTimeMin && Key.TotalTimeMin !in src
    requires Settles(k, Get(src, k)) && Settles(Key.TotalTimeMin, Undef)
    requires k in src ==> IsField(k, src[k])
    ensures OutputValue(k, src) == Get(src, k)
    ensures Kept(k, OutputValue(k, src)) <==> k in src
  {
    hide ParseField, IsField;
    KeptIsPresent(k, Get(src, k));
    TimesAreTimes(Get(src, Key.CookTimeMin));
  }

  lemma {:induction false} AssembleIsFixed(keys: set<Key>, src: Fields)
    requires src.Keys <= keys && Key.TotalTimeMin !in keys
    requires forall k :: k in keys ==> Settles(k, Get(src, k))
    requires Settles(Key.TotalTimeMin, Undef)
    requires forall k :: k in src ==> IsField(k, src[k])
    ensures Assemble(keys, src) == src
  {
    hide Settles, IsField, Kept, OutputValue;
    forall k | k in keys
      ensures OutputValue(k, src) == Get(src, k) && (Kept(k, OutputValue(k, src)) <==> k in src)
    {
      OutputIsFixed(k, src);
    }
  }

  lemma {:induction false} AllSettle(src: Fields)
    ensures forall k :: k in INPUT ==> Settles(k, Get(src, k))
  {
    hide Settles;
    forall k | k in INPUT ensures Settles(k, Get(src, k)) {
      FieldSettles(k, Get(src, k));
    }
  }

  /**
   * The schema accepts every value and yields a canonical record: the `{}` fallback of
   * `normalizeCanonicalRecipe` and the formatter's rejection are never reached.
   */
  lemma {:induction false} SchemaIsTotal(value: Json)
    ensures CanonicalRecipeSchema(value).Ok?
    ensures NormalizeCanonicalRecipe(value) == CanonicalRecipeSchema(value).value
    ensures IsCanonical(NormalizeCanonicalRecipe(value))
  {
    hide ParseField, IsField, Assemble;
    var src := if value.Obj? then value.fields else map[];
    AllSettle(src);
    AssembledFields(OUTPUT, src);
  }

  /** A value is left unchanged exactly when it is a canonical record. */
  lemma {:induction false} FixedIffCanonical(value: Json)
    ensures NormalizeCanonicalRecipe(value) == value <==> IsCanonical(value)
  {
    hide ParseField, IsField, Assemble;
    SchemaIsTotal(value);
    if IsCanonical(value) {
      AllSettle(value.fields);
      assert Settles(Key.TotalTimeMin, Get(value.fields, Key.TotalTimeMin));
      AssembleIsFixed(OUTPUT, value.fields);
    }
  }

  /** Normalising twice is normalising once, for every value. */
  lemma {:induction false} NormalizationIsIdempotent(value: Json)
    ensures NormalizeCanonicalRecipe(NormalizeCanonicalRecipe(value)) == NormalizeCanonicalRecipe(value)
  {
    SchemaIsTotal(value);
    FixedIffCanonical(NormalizeCanonicalRecipe(value));
  }
}
