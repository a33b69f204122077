/** What the object schemas accept when a value reaches them without the preprocessing steps in front. */
module Validators {
  import opened Text
  import opened Json
  import opened Numbers
  import opened NumberGrammar
  import opened Lists
  import opened Schemas
  import opened RecipeParts
  import opened Readings
  import C = CanonicalRecipe
  import J = RecipeJsonLd

  predicate IsNumber(j: Json, n: nat) { j == Num(n as real) }

  ghost predicate CountingNumber(j: Json) { exists n: nat :: IsNumber(j, n) }

  /** What becomes of the value of one property: it is left alone or read, and refused when it has no `v`. */
  ghost predicate Becomes(rule: Rule, j: Json, v: Json) {
    match rule
    case RequiredText(min) => v == j && j.Str? && |j.text| >= min
    case OptionalText => v == j && (j.Str? || j == Undef)
    case TrimmedText => (v.Str? && TextOf(j, v.text)) || (v == Undef && !HasText(j))
    case FiniteNumber => NumberFrom(j, v)
    case OptionalNumber => v == j && (j.Num? || j == Undef)
    case OptionalFlag => v == j && (j == Bool(true) || j == Bool(false) || j == Undef)
    case OrderNumber => v == j && CountingNumber(j)
    case NonNegativeInteger => WholeFrom(j, v)
    case PositiveInteger => PositiveFrom(j, v)
    case OneOf(allowed) => v == j && (j == Undef || exists i :: 0 <= i < |allowed| && j == Str(allowed[i]))
  }

  lemma {:induction false} IntegersFrom0(j: Json)
    ensures IntegerFrom(j, 0) <==> CountingNumber(j)
  {
    if IntegerFrom(j, 0) {
      assert IsNumber(j, j.num.Floor);
    }
  }

  lemma {:induction false} NumbersInText(j: Json, v: Json)
    ensures NumberFrom(j, v) <==> v == OfReal(ToFiniteNumber(j))
  {
    hide ToFiniteNumber, ReadsNumber;
    forall x ensures ToFiniteNumber(j) == Some(x) <==> ReadsNumber(j, x) {
      FiniteNumberMatches(j, x);
    }
    var number := ToFiniteNumber(j);
    if number.Some? { assert ReadsNumber(j, number.value); }
  }

  lemma {:induction false} WholeNumbers(j: Json, v: Json)
    ensures WholeFrom(j, v) <==> v == OfInt(ToNonNegativeInteger(j))
  {
    WholeIsFrom(j);
    hide ToNonNegativeInteger, RoundedFrom0;
    forall n ensures ToNonNegativeInteger(j) == Some(n) <==> RoundedFrom0(j, n) {
      NonNegativeIntegerMatches(j, n);
    }
  }

  lemma {:induction false} PositiveNumbers(j: Json, v: Json)
    ensures PositiveFrom(j, v) <==> v == OfInt(RoundedPositive(j))
  {
    PositiveIsFrom(j);
    hide ToFiniteNumber, ReadsNumber, Round, NearestFrom1;
    forall x ensures ToFiniteNumber(j) == Some(x) <==> ReadsNumber(j, x) {
      FiniteNumberMatches(j, x);
    }
    var number := ToFiniteNumber(j);
    if number.Some? && number.value > 0.0 {
      var x := number.value;
      PositiveRounds(x);
      if n :| RoundedFrom1(j, n) && v == Num(n as real) {
        NearestIsUnique(x, n, if Round(x) < 1 then 1 else Round(x));
      }
    }
  }

  lemma {:induction false} NearestIsUnique(x: real, m: int, n: int)
    requires NearestFrom1(x, m) && NearestFrom1(x, n)
    ensures m == n
  {
  }

  lemma {:induction false} TrimmedTexts(j: Json, v: Json)
    ensures Becomes(TrimmedText, j, v) <==> v == OfText(ToNonEmptyString(j))
  {
    hide ToNonEmptyString, TextOf;
    HasTextMatches(j);
    if v.Str? { NonEmptyStringMatches(j, v.text); }
  }

  /** Every validator accepts exactly the values for which the relation has a result, and gives that result. */
  lemma {:induction false} RuleExactly(rule: Rule, j: Json, v: Json)
    ensures ParseRule(rule, j) == Ok(v) <==> Becomes(rule, j, v)
  {
    hide ToNonEmptyString, ToFiniteNumber, ToNonNegativeInteger, RoundedPositive, NumberFrom, WholeFrom, PositiveFrom;
    match rule
    case TrimmedText => TrimmedTexts(j, v);
    case FiniteNumber => NumbersInText(j, v);
    case NonNegativeInteger => WholeNumbers(j, v); IntegersAreInRange(j);
    case PositiveInteger => PositiveNumbers(j, v); IntegersAreInRange(j);
    case OrderNumber => IntegersFrom0(j);
    case _ =>
  }

  // ---------------------------------------------------------------- records and lists of records

  /** Unknown properties go, every other one becomes what its validator says, and `undefined` is not added. */
  ghost predicate BecomesRecord(shape: Shape, j: Json, v: Json) {
    && j.Obj? && v.Obj? && v.fields.Keys <= shape.Keys
    && (forall k :: k in shape ==> Becomes(shape[k], Get(j.fields, k), Get(v.fields, k)))
    && (forall k :: k in shape ==> (k in v.fields <==> k in j.fields || Get(v.fields, k) != Undef))
  }

  lemma {:induction false} ObjectExactly(shape: Shape, j: Json, v: Json)
    ensures ParseObject(shape, j) == Ok(v) <==> BecomesRecord(shape, j, v)
  {
    hide ParseRule, Becomes;
    if j.Obj? {
      forall k, w | k in shape
        ensures ParseRule(shape[k], Get(j.fields, k)) == Ok(w) <==> Becomes(shape[k], Get(j.fields, k), w)
      {
        RuleExactly(shape[k], Get(j.fields, k), w);
      }
      if BecomesRecord(shape, j, v) {
        RecordIsParsed(shape, j, v);
      }
    }
  }

  lemma {:induction false} RecordIsParsed(shape: Shape, j: Json, v: Json)
    requires BecomesRecord(shape, j, v)
    requires forall k :: k in shape ==> ParseRule(shape[k], Get(j.fields, k)) == Ok(Get(v.fields, k))
    ensures ParseObject(shape, j) == Ok(v)
  {
    hide ParseRule, Becomes;
    var out := map k | k in shape && (k in j.fields || ParseRule(shape[k], Undef) != Ok(Undef)) ::
      ParsedField(shape[k], Get(j.fields, k));
    forall k | k in shape ensures k in out <==> k in v.fields {
      assert ParseRule(shape[k], Get(j.fields, k)) == Ok(Get(v.fields, k));
    }
    forall k | k in out ensures k in v.fields && out[k] == v.fields[k] {
      assert k in shape;
    }
    assert out == v.fields;
  }

  lemma {:induction false} ItemsExactly(shape: Shape, items: seq<Json>, out: seq<Json>)
    ensures ParseItems(shape, items) == Ok(out) <==>
      |out| == |items| && forall i :: 0 <= i < |items| ==> BecomesRecord(shape, items[i], out[i])
  {
    hide ParseObject, BecomesRecord;
    if items == [] {
    } else if out == [] {
    } else {
      ItemsExactly(shape, items[1..], out[1..]);
      ObjectExactly(shape, items[0], out[0]);
      assert out == [out[0]] + out[1..];
      forall i | 1 <= i < |items| && |out| == |items|
        ensures items[i] == items[1..][i - 1] && out[i] == out[1..][i - 1]
      {
      }
    }
  }

  /** A list is accepted exactly when each of its entries is, and each becomes what it becomes alone. */
  lemma {:induction false} ListExactly(shape: Shape, j: Json, v: Json)
    ensures ParseList(shape, j) == Ok(v) <==>
      || (j == Undef && v == Undef)
      || (j.Arr? && v.Arr? && |v.items| == |j.items|
        && forall i :: 0 <= i < |j.items| ==> BecomesRecord(shape, j.items[i], v.items[i]))
  {
    hide ParseItems, BecomesRecord;
    if j.Arr? && v.Arr? { ItemsExactly(shape, j.items, v.items); }
  }

  // ---------------------------------------------------------------- what is accepted, schema by schema

  ghost predicate Accepts(shape: Shape, j: Json) { exists v :: ParseObject(shape, j) == Ok(v) }

  predicate TextOrAbsent(j: Json) { j.Str? || j == Undef }

  predicate NumberOrAbsent(j: Json) { j.Num? || j == Undef }

  predicate EitherOrAbsent(a: string, b: string, j: Json) { j == Str(a) || j == Str(b) || j == Undef }

  predicate FlagOrAbsent(j: Json) { j == Bool(true) || j == Bool(false) || j == Undef }

  /** Validators behind a reading step take anything, the others only values of their type. */
  ghost predicate Takes(rule: Rule, j: Json) {
    match rule
    case RequiredText(min) => j.Str? && |j.text| >= min
    case OptionalText => TextOrAbsent(j)
    case OptionalNumber => NumberOrAbsent(j)
    case OptionalFlag => FlagOrAbsent(j)
    case OrderNumber => CountingNumber(j)
    case OneOf(allowed) => j == Undef || exists i :: 0 <= i < |allowed| && j == Str(allowed[i])
    case _ => true
  }

  lemma {:induction false} RuleTakes(rule: Rule, j: Json)
    ensures ParseRule(rule, j).Ok? <==> Takes(rule, j)
  {
    hide ToNonEmptyString, ToFiniteNumber, ToNonNegativeInteger, RoundedPositive;
    match rule
    case OrderNumber => IntegersFrom0(j);
    case NonNegativeInteger => IntegersAreInRange(j);
    case PositiveInteger => IntegersAreInRange(j);
    case _ =>
  }

  lemma {:induction false} AcceptedWhen(shape: Shape, j: Json)
    ensures Accepts(shape, j) <==> j.Obj? && forall k :: k in shape ==> Takes(shape[k], Get(j.fields, k))
  {
    hide ParseRule, Takes;
    var parsed := ParseObject(shape, j);
    if parsed.Ok? { assert parsed == Ok(parsed.value); }
    if j.Obj? {
      forall k | k in shape ensures ParseRule(shape[k], Get(j.fields, k)).Ok? <==> Takes(shape[k], Get(j.fields, k)) {
        RuleTakes(shape[k], Get(j.fields, k));
      }
    }
  }

  /** Of an ingredient only its name, its order and its flag can be wrong. */
  lemma {:induction false} IngredientAccepted(min: nat, j: Json)
    ensures Accepts(IngredientShape(min), j) <==>
      && j.Obj? && Get(j.fields, Key.Name).Str? && |Get(j.fields, Key.Name).text| >= min
      && CountingNumber(Get(j.fields, Key.Order)) && FlagOrAbsent(Get(j.fields, Key.Optional))
  {
    AcceptedWhen(IngredientShape(min), j);
    hide CountingNumber, FlagOrAbsent, Accepts;
    assert IngredientShape(min).Keys == INGREDIENT_KEYS;
  }

  /** A canonical instruction needs text and an order; one in JSON-LD terms needs nothing but the right types. */
  lemma {:induction false} InstructionAccepted(j: Json)
    ensures Accepts(C.INSTRUCTION, j) <==>
      && j.Obj? && Get(j.fields, Key.TextKey).Str? && Get(j.fields, Key.TextKey).text != ""
      && CountingNumber(Get(j.fields, Key.Order))
    ensures Accepts(J.INSTRUCTION, j) <==>
      && j.Obj? && TextOrAbsent(Get(j.fields, Key.TextKey)) && TextOrAbsent(Get(j.fields, Key.Name))
      && TextOrAbsent(Get(j.fields, Key.Url))
      && EitherOrAbsent("HowToStep", "HowToSection", Get(j.fields, Key.AtType))
  {
    AcceptedWhen(C.INSTRUCTION, j);
    AcceptedWhen(J.INSTRUCTION, j);
    hide CountingNumber, TextOrAbsent, Accepts;
    assert C.INSTRUCTION.Keys == {Key.TextKey, Key.Order, Key.DurationMin};
    assert J.INSTRUCTION.Keys == {Key.AtType, Key.TextKey, Key.Name, Key.Url};
    if j.Obj? { OneOfTwo(J.INSTRUCTION_TYPES, Get(j.fields, Key.AtType)); }
  }

  lemma {:induction false} OneOfTwo(allowed: seq<string>, j: Json)
    requires |allowed| == 2
    ensures Takes(OneOf(allowed), j) <==> EitherOrAbsent(allowed[0], allowed[1], j)
  {
  }

  /** An author of another type is refused, and in JSON-LD terms one whose name is no text. */
  lemma {:induction false} AuthorAccepted(j: Json)
    ensures Accepts(C.AUTHOR, j) <==>
      j.Obj? && EitherOrAbsent("Person", "Organization", Get(j.fields, Key.TypeKey))
    ensures Accepts(J.AUTHOR, j) <==>
      && j.Obj? && EitherOrAbsent("Person", "Organization", Get(j.fields, Key.AtType))
      && TextOrAbsent(Get(j.fields, Key.Name))
  {
    AcceptedWhen(C.AUTHOR, j);
    AcceptedWhen(J.AUTHOR, j);
    hide TextOrAbsent, Accepts;
    assert C.AUTHOR.Keys == {Key.Name, Key.TypeKey} && J.AUTHOR.Keys == {Key.AtType, Key.Name};
    if j.Obj? {
      OneOfTwo(AUTHOR_TYPES, Get(j.fields, Key.TypeKey));
      OneOfTwo(AUTHOR_TYPES, Get(j.fields, Key.AtType));
    }
  }

  /** Nutrition in JSON-LD terms holds texts, a rating numbers; canonical nutrition is read and refuses no object. */
  lemma {:induction false} NutritionAndRatingAccepted(j: Json)
    ensures Accepts(NutritionShape(TrimmedText), j) <==> j.Obj?
    ensures Accepts(NutritionShape(OptionalText), j) <==>
      j.Obj? && forall k :: k in NUTRIENTS ==> TextOrAbsent(Get(j.fields, k))
    ensures Accepts(J.RATING, j) <==>
      j.Obj? && NumberOrAbsent(Get(j.fields, Key.RatingValue)) && NumberOrAbsent(Get(j.fields, Key.ReviewCount))
  {
    AcceptedWhen(NutritionShape(TrimmedText), j);
    AcceptedWhen(NutritionShape(OptionalText), j);
    AcceptedWhen(J.RATING, j);
    hide TextOrAbsent, NumberOrAbsent, Accepts;
    assert J.RATING.Keys == {Key.RatingValue, Key.ReviewCount};
  }

  /** Lists of keys hold allowed keys alone, lists of texts hold texts; all of them may be absent. */
  lemma {:induction false} TextListsAccepted(allowed: seq<string>, j: Json, v: Json)
    ensures ParseKeys(allowed, j) == Ok(v) <==>
      v == j && (j == Undef || (j.Arr? && forall item :: item in j.items ==> item.Str? && item.text in allowed))
    ensures ParseTexts(j) == Ok(v) <==>
      v == j && (j == Undef || (j.Arr? && forall item :: item in j.items ==> item.Str?))
    ensures ParseTextOrTexts(j) == Ok(v) <==>
      v == j && (TextOrAbsent(j) || (j.Arr? && forall item :: item in j.items ==> item.Str?))
  {
    if j.Arr? {
      assert forall i :: 0 <= i < |j.items| ==> j.items[i] in j.items;
    }
  }
}
