/** The validators behind the preprocessing steps: they accept a value, perhaps rebuilt, or reject it. */
module Schemas {
  import opened Text
  import opened Json
  import opened Numbers
  import opened Lists

  datatype Result<+T> = Ok(value: T) | Err

  /** One property of an object schema. */
  datatype Rule =
    | RequiredText(min: nat)         // z.string().min(n)
    | OptionalText                   // z.string().optional()
    | TrimmedText                    // preprocess(toNonEmptyString, z.string().optional())
    | FiniteNumber                   // preprocess(toFiniteNumber, z.number().optional())
    | OptionalNumber                 // z.number().optional()
    | OptionalFlag                   // z.boolean().optional()
    | OrderNumber                    // z.number().int().min(0)
    | NonNegativeInteger             // preprocess(round, z.number().int().min(0).optional())
    | PositiveInteger                // preprocess(round, z.number().int().min(1).optional())
    | OneOf(allowed: seq<string>)    // z.enum(allowed).optional()

  predicate IsInteger(r: real) { r == r.Floor as real }

  predicate IntegerFrom(j: Json, min: int) { j.Num? && IsInteger(j.num) && j.num >= min as real }

  function Check(accepted: bool, j: Json): Result<Json> {
    if accepted then Ok(j) else Err
  }

  function RoundedPositive(value: Json): Option<int> {
    var parsed := ToFiniteNumber(value);
    if parsed.None? || parsed.value <= 0.0 then None
    else Some(if Round(parsed.value) < 1 then 1 else Round(parsed.value))
  }

  function ParseRule(rule: Rule, j: Json): Result<Json> {
    match rule
    case RequiredText(min) => Check(j.Str? && |j.text| >= min, j)
    case OptionalText => Check(j.Undef? || j.Str?, j)
    case TrimmedText =>
      var t := OfText(ToNonEmptyString(j));
      Check(t.Undef? || t.Str?, t)
    case FiniteNumber =>
      var n := OfReal(ToFiniteNumber(j));
      Check(n.Undef? || n.Num?, n)
    case OptionalNumber => Check(j.Undef? || j.Num?, j)
    case OptionalFlag => Check(j.Undef? || j.Bool?, j)
    case OrderNumber => Check(IntegerFrom(j, 0), j)
    case NonNegativeInteger =>
      var n := OfInt(ToNonNegativeInteger(j));
      Check(n.Undef? || IntegerFrom(n, 0), n)
    case PositiveInteger =>
      var n := OfInt(RoundedPositive(j));
      Check(n.Undef? || IntegerFrom(n, 1), n)
    case OneOf(allowed) => Check(j.Undef? || (j.Str? && j.text in allowed), j)
  }

  type Shape = map<Key, Rule>

  /** `z.object(shape)`: unknown properties are stripped, missing ones are parsed as `undefined`. */
  function ParseObject(shape: Shape, j: Json): Result<Json> {
    if !j.Obj? then Err
    else if exists k :: k in shape && ParseRule(shape[k], Get(j.fields, k)).Err? then Err
    else
      Ok(Obj(map k | k in shape && (k in j.fields || ParseRule(shape[k], Undef) != Ok(Undef)) ::
        ParsedField(shape[k], Get(j.fields, k))))
  }

  function ParsedField(rule: Rule, j: Json): Json {
    var r := ParseRule(rule, j);
    if r.Ok? then r.value else Undef
  }

  function ParseOptionalObject(shape: Shape, j: Json): Result<Json> {
    if j.Undef? then Ok(Undef) else ParseObject(shape, j)
  }

  function ParseItems(shape: Shape, items: seq<Json>): Result<seq<Json>> {
    if items == [] then Ok([])
    else
      var head := ParseObject(shape, items[0]);
      var rest := ParseItems(shape, items[1..]);
      if head.Ok? && rest.Ok? then Ok([head.value] + rest.value) else Err
  }

  /** `z.array(z.object(shape)).optional()` */
  function ParseList(shape: Shape, j: Json): Result<Json> {
    if j.Undef? then Ok(Undef)
    else if !j.Arr? then Err
    else
      var items := ParseItems(shape, j.items);
      if items.Ok? then Ok(Arr(items.value)) else Err
  }

  predicate AllStr(items: seq<Json>) { forall i :: 0 <= i < |items| ==> items[i].Str? }

  function Texts(items: seq<Json>): (texts: seq<string>)
    requires AllStr(items)
    ensures |texts| == |items| && forall i :: 0 <= i < |items| ==> texts[i] == items[i].text
  {
    seq(|items|, i requires 0 <= i < |items| => items[i].text)
  }

  /** `z.array(z.string()).optional()` */
  function ParseTexts(j: Json): Result<Json> {
    Check(j.Undef? || (j.Arr? && AllStr(j.items)), j)
  }

  /** `z.array(z.enum(allowed)).optional()` */
  function ParseKeys(allowed: seq<string>, j: Json): Result<Json> {
    Check(j.Undef? || (j.Arr? && forall i :: 0 <= i < |j.items| ==> j.items[i].Str? && j.items[i].text in allowed), j)
  }

  /** `z.union([z.string(), z.array(z.string())]).optional()` */
  function ParseTextOrTexts(j: Json): Result<Json> {
    Check(j.Undef? || j.Str? || (j.Arr? && AllStr(j.items)), j)
  }

  /** `items.flatMap((entry, index) => f(entry, index))`, counting positions from `position`. */
  function FlatMap(f: (Json, nat) -> seq<Json>, items: seq<Json>, position: nat): seq<Json> {
    if items == [] then [] else f(items[0], position) + FlatMap(f, items[1..], position + 1)
  }

  function NonEmptyArr(items: seq<Json>): Json { if items == [] then Undef else Arr(items) }

  /** The list readers of both schemas: anything but an array, and an array with no usable entry, is absent. */
  function EntryList(f: (Json, nat) -> seq<Json>, j: Json): Json {
    if j.Arr? then NonEmptyArr(FlatMap(f, j.items, 0)) else Undef
  }

  ghost predicate IsListOf(good: Json -> bool, j: Json) {
    j.Arr? && j.items != [] && forall i :: 0 <= i < |j.items| ==> good(j.items[i])
  }

  // ---------------------------------------------------------------- entry lists

  lemma {:induction false} FlatMapIsGood(
      f: (Json, nat) -> seq<Json>, good: Json -> bool, items: seq<Json>, position: nat)
    requires forall j, p, i :: 0 <= i < |f(j, p)| ==> good(f(j, p)[i])
    ensures forall i :: 0 <= i < |FlatMap(f, items, position)| ==> good(FlatMap(f, items, position)[i])
  {
    if items == [] {
    } else {
      FlatMapIsGood(f, good, items[1..], position + 1);
    }
  }

  lemma {:induction false} FlatMapIsFixed(
      f: (Json, nat) -> seq<Json>, good: Json -> bool, items: seq<Json>, position: nat)
    requires forall j, p :: good(j) ==> f(j, p) == [j]
    requires forall i :: 0 <= i < |items| ==> good(items[i])
    ensures FlatMap(f, items, position) == items
  {
    if items == [] {
    } else {
      FlatMapIsFixed(f, good, items[1..], position + 1);
      assert items == [items[0]] + items[1..];
    }
  }

  /**
   * A list reader whose entries satisfy `good` and keeps entries that already do, followed by a schema
   * that accepts such entries: the result is such a list or absent, and such a list is unchanged.
   */
  lemma {:induction false} EntryListResult(f: (Json, nat) -> seq<Json>, good: Json -> bool, shape: Shape, j: Json)
    requires forall j, p, i :: 0 <= i < |f(j, p)| ==> good(f(j, p)[i])
    requires forall j, p :: good(j) ==> f(j, p) == [j]
    requires forall j :: good(j) ==> ParseObject(shape, j) == Ok(j)
    ensures ParseList(shape, EntryList(f, j)) == Ok(EntryList(f, j))
    ensures EntryList(f, j).Undef? || IsListOf(good, EntryList(f, j))
    ensures IsListOf(good, j) ==> EntryList(f, j) == j
  {
    hide ParseObject;
    if j.Arr? {
      FlatMapIsGood(f, good, j.items, 0);
      ItemsAreFixed(shape, FlatMap(f, j.items, 0));
      if IsListOf(good, j) {
        FlatMapIsFixed(f, good, j.items, 0);
      }
    }
  }

  // ---------------------------------------------------------------- when a schema changes nothing

  lemma {:induction false} ObjectIsFixed(shape: Shape, fields: Fields)
    requires fields.Keys <= shape.Keys
    requires forall k :: k in shape ==> ParseRule(shape[k], Get(fields, k)) == Ok(Get(fields, k))
    ensures ParseObject(shape, Obj(fields)) == Ok(Obj(fields))
  {
    hide ParseRule;
    var out := map k | k in shape && (k in fields || ParseRule(shape[k], Undef) != Ok(Undef)) ::
      ParsedField(shape[k], Get(fields, k));
    forall k | k in out ensures k in fields && out[k] == fields[k] {
      assert k in shape;
    }
    forall k | k in fields ensures k in out {
      assert k in shape;
    }
    assert out == fields;
  }

  lemma {:induction false} ItemsAreFixed(shape: Shape, items: seq<Json>)
    requires forall i :: 0 <= i < |items| ==> ParseObject(shape, items[i]) == Ok(items[i])
    ensures ParseItems(shape, items) == Ok(items)
  {
    hide ParseObject;
    if items == [] {
    } else {
      ItemsAreFixed(shape, items[1..]);
      assert items == [items[0]] + items[1..];
    }
  }

  lemma {:induction false} StrsOfTexts(items: seq<Json>)
    requires AllStr(items)
    ensures Strs(Texts(items)) == items
  {
  }

  lemma {:induction false} IntegersAreFixed(j: Json)
    ensures IntegerFrom(j, 0) ==> OfInt(ToNonNegativeInteger(j)) == j
    ensures IntegerFrom(j, 1) ==> OfInt(RoundedPositive(j)) == j
  {
    if IntegerFrom(j, 0) {
      RoundInteger(j.num.Floor);
    }
  }

  lemma {:induction false} IntegersAreInRange(j: Json)
    ensures ToNonNegativeInteger(j).Some? ==> IntegerFrom(OfInt(ToNonNegativeInteger(j)), 0)
    ensures RoundedPositive(j).Some? ==> IntegerFrom(OfInt(RoundedPositive(j)), 1)
  {
  }
}
