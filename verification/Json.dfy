/** JavaScript values as the normalisers see them. */
module Json {
  import opened Text

  /** Property names that the schemas read or write; every other name is `Other`. */
  datatype Key =
    | Name | Description | Servings | YieldUnitLabel | PrepTimeMin | CookTimeMin | TotalTimeMin
    | Difficulty | Budget | Categories | Attributes | Ingredients | Instructions | Image | Author
    | Nutrition | Keywords | Cuisine
    | Quantity | Amount | Unit | Note | Optional | Order | Index | Raw | Line | TextKey | Ingredient
    | DurationMin | Duration | Url | TypeKey | AtType | AtContext
    | Calories | ProteinContent | FatContent | CarbohydrateContent | FiberContent | SodiumContent
    | DatePublished | PrepTime | CookTime | TotalTime | RecipeYield | RecipeIngredient
    | RecipeInstructions | AggregateRating | RatingValue | ReviewCount
    | Other(spelling: string)

  /** Numbers are finite and exact: NaN and the infinities are not values of this model. */
  datatype Json =
    | Undef
    | Null
    | Bool(flag: bool)
    | Num(num: real)
    | Str(text: string)
    | Arr(items: seq<Json>)
    | Obj(fields: map<Key, Json>)

  type Fields = map<Key, Json>

  /** A property read: a missing property reads as `undefined`. */
  function Get(fields: Fields, k: Key): Json {
    if k in fields then fields[k] else Undef
  }

  /** `a ?? b`. */
  function Coalesce(a: Json, b: Json): Json {
    if a.Undef? || a.Null? then b else a
  }

  predicate Truthy(j: Json) {
    match j
    case Undef => false
    case Null => false
    case Bool(b) => b
    case Num(r) => r != 0.0
    case Str(s) => s != ""
    case Arr(_) => true
    case Obj(_) => true
  }

  /** The effect of conditional spreads: properties whose value is `undefined` are left out. */
  function Compact(fields: Fields): Fields {
    map k | k in fields && !fields[k].Undef? :: fields[k]
  }

  function ToNonEmptyString(value: Json): Option<string> {
    if !value.Str? then None
    else
      var normalized := Trim(value.text);
      if normalized != "" then Some(normalized) else None
  }

  function OfText(s: Option<string>): Json {
    match s case None => Undef case Some(t) => Str(t)
  }

  function OfReal(r: Option<real>): Json {
    match r case None => Undef case Some(x) => Num(x)
  }

  function OfInt(n: Option<int>): Json {
    match n case None => Undef case Some(x) => Num(x as real)
  }

  /** The first of several candidates that is text with something in it: `f(a) ?? f(b) ?? ...`. */
  function FirstText(candidates: seq<Json>): Option<string> {
    if candidates == [] then None
    else
      var head := ToNonEmptyString(candidates[0]);
      if head.Some? then head else FirstText(candidates[1..])
  }

  /** Text as the normalisers leave it. */
  predicate CleanText(s: string) { s != "" && Trimmed(s) }

  predicate IsCleanStr(j: Json) { j.Str? && CleanText(j.text) }

  lemma {:induction false} NonEmptyStringIsClean(value: Json)
    ensures ToNonEmptyString(value).Some? ==> CleanText(ToNonEmptyString(value).value)
    ensures IsCleanStr(value) ==> ToNonEmptyString(value) == Some(value.text)
  {
    if value.Str? {
      TrimShape(value.text);
      if IsCleanStr(value) { TrimIsIdentity(value.text); }
    }
  }

  /** `t` is what is left of a text without the white space around it, and something is left. */
  ghost predicate TextOf(j: Json, t: string) { j.Str? && CleanText(t) && exists a, b :: Surrounds(j.text, a, t, b) }

  predicate Surrounds(s: string, a: string, t: string, b: string) { s == a + t + b && AllSpace(a) && AllSpace(b) }

  /** A value is read as text exactly when it is one with something besides white space. */
  lemma {:induction false} NonEmptyStringMatches(j: Json, t: string)
    ensures ToNonEmptyString(j) == Some(t) <==> TextOf(j, t)
  {
    hide Trim, IsSpace;
    if j.Str? {
      TrimShape(j.text);
      var a, b :| j.text == a + Trim(j.text) + b && AllSpace(a) && AllSpace(b);
      assert Surrounds(j.text, a, Trim(j.text), b);
      if TextOf(j, t) {
        var c, d :| Surrounds(j.text, c, t, d);
        TrimIsUnique(c, t, d);
      }
    }
  }

  /** `FirstText` picks the earliest usable candidate, and fails only when there is none. */
  lemma {:induction false} FirstTextPicksEarliest(candidates: seq<Json>)
    ensures FirstText(candidates).None? <==>
      forall i :: 0 <= i < |candidates| ==> ToNonEmptyString(candidates[i]).None?
    ensures FirstText(candidates).Some? ==>
      && CleanText(FirstText(candidates).value)
      && exists i ::
        && 0 <= i < |candidates|
        && ToNonEmptyString(candidates[i]) == FirstText(candidates)
        && forall j :: 0 <= j < i ==> ToNonEmptyString(candidates[j]).None?
  {
    if candidates == [] {
    } else {
      NonEmptyStringIsClean(candidates[0]);
      if ToNonEmptyString(candidates[0]).None? {
        var rest := candidates[1..];
        FirstTextPicksEarliest(rest);
        assert forall i :: 1 <= i < |candidates| ==> candidates[i] == rest[i - 1];
        if FirstText(rest).Some? {
          var i :| 0 <= i < |rest| && ToNonEmptyString(rest[i]) == FirstText(rest)
            && forall j :: 0 <= j < i ==> ToNonEmptyString(rest[j]).None?;
          assert candidates[i + 1] == rest[i];
          assert forall j :: 0 <= j < i + 1 ==> ToNonEmptyString(candidates[j]).None?;
        } else {
          assert forall i :: 0 <= i < |rest| ==> rest[i] == candidates[i + 1];
        }
      } else {
        assert ToNonEmptyString(candidates[0]) == FirstText(candidates);
      }
    }
  }
}
