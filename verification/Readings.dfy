/**
 * What a property of a normalised recipe says about the value it was read from, kind by kind, without naming the
 * reader.
 */
module Readings {
  import opened Text
  import opened Json
  import opened Numbers
  import opened NumberGrammar
  import opened Lists
  import opened ListEntries
  import opened Schemas
  import opened RecipeParts

  function FieldsOf(value: Json): Fields { if value.Obj? then value.fields else map[] }

  // ---------------------------------------------------------------- text

  ghost predicate HasText(j: Json) { exists t :: TextOf(j, t) }

  lemma {:induction false} HasTextMatches(j: Json)
    ensures HasText(j) <==> ToNonEmptyString(j).Some?
    ensures ToNonEmptyString(j).Some? ==> TextOf(j, ToNonEmptyString(j).value)
  {
    hide ToNonEmptyString, TextOf;
    forall t ensures ToNonEmptyString(j) == Some(t) <==> TextOf(j, t) {
      NonEmptyStringMatches(j, t);
    }
    var text := ToNonEmptyString(j);
    assert text.Some? ==> TextOf(j, text.value);
  }

  /** The text of the first of several properties that holds any. */
  ghost predicate EarliestText(entry: Fields, keys: seq<Key>, i: int, t: string) {
    0 <= i < |keys| && TextOf(Get(entry, keys[i]), t) && forall j :: 0 <= j < i ==> !HasText(Get(entry, keys[j]))
  }

  ghost predicate TextFrom(entry: Fields, keys: seq<Key>, v: Json) {
    match v
    case Str(t) => exists i :: EarliestText(entry, keys, i, t)
    case Undef => forall j :: 0 <= j < |keys| ==> !HasText(Get(entry, keys[j]))
    case _ => false
  }

  function Values(entry: Fields, keys: seq<Key>): (r: seq<Json>)
    ensures |r| == |keys| && forall i :: 0 <= i < |keys| ==> r[i] == Get(entry, keys[i])
  {
    seq(|keys|, i requires 0 <= i < |keys| => Get(entry, keys[i]))
  }

  lemma {:induction false} FirstTextIsFrom(entry: Fields, keys: seq<Key>)
    ensures TextFrom(entry, keys, OfText(FirstText(Values(entry, keys))))
  {
    hide ToNonEmptyString, FirstText, HasText, TextOf;
    var values := Values(entry, keys);
    FirstTextPicksEarliest(values);
    forall j | 0 <= j < |keys|
      ensures HasText(Get(entry, keys[j])) <==> ToNonEmptyString(values[j]).Some?
      ensures ToNonEmptyString(values[j]).Some? ==> TextOf(Get(entry, keys[j]), ToNonEmptyString(values[j]).value)
    {
      HasTextMatches(values[j]);
    }
    if FirstText(values).Some? {
      var i :| 0 <= i < |values| && ToNonEmptyString(values[i]) == FirstText(values)
        && forall j :: 0 <= j < i ==> ToNonEmptyString(values[j]).None?;
      assert EarliestText(entry, keys, i, FirstText(values).value);
    }
  }

  lemma {:induction false} TextIsFrom(entry: Fields, k: Key)
    ensures TextFrom(entry, [k], OfText(ToNonEmptyString(Get(entry, k))))
  {
    hide ToNonEmptyString, HasText, TextOf;
    HasTextMatches(Get(entry, k));
    var text := ToNonEmptyString(Get(entry, k));
    if text.Some? { assert EarliestText(entry, [k], 0, text.value); }
  }

  // ---------------------------------------------------------------- numbers

  /** The property, unless it is missing or null, and else the other one. */
  function FirstGiven(entry: Fields, a: Key, b: Key): Json {
    if a in entry && entry[a] != Undef && entry[a] != Null then entry[a] else if b in entry then entry[b] else Undef
  }

  lemma {:induction false} CoalesceIsFirstGiven(entry: Fields, a: Key, b: Key)
    ensures Coalesce(Get(entry, a), Get(entry, b)) == FirstGiven(entry, a, b)
  {
  }

  /** A number the value holds or spells. */
  ghost predicate NumberFrom(j: Json, v: Json) {
    match v
    case Num(x) => ReadsNumber(j, x)
    case Undef => forall x :: !ReadsNumber(j, x)
    case _ => false
  }

  lemma {:induction false} NumberIsFrom(j: Json)
    ensures NumberFrom(j, OfReal(ToFiniteNumber(j)))
  {
    hide ToFiniteNumber, ReadsNumber;
    forall x ensures ToFiniteNumber(j) == Some(x) <==> ReadsNumber(j, x) {
      FiniteNumberMatches(j, x);
    }
  }

  /** A number from zero up, rounded. */
  ghost predicate WholeFrom(j: Json, v: Json) {
    match v
    case Num(x) => exists n :: RoundedFrom0(j, n) && x == n as real
    case Undef => forall n :: !RoundedFrom0(j, n)
    case _ => false
  }

  lemma {:induction false} WholeIsFrom(j: Json)
    ensures WholeFrom(j, OfInt(ToNonNegativeInteger(j)))
  {
    hide ToNonNegativeInteger, RoundedFrom0;
    forall n ensures ToNonNegativeInteger(j) == Some(n) <==> RoundedFrom0(j, n) {
      NonNegativeIntegerMatches(j, n);
    }
    var whole := ToNonNegativeInteger(j);
    assert whole.Some? ==> RoundedFrom0(j, whole.value);
  }

  /** The nearest integer, but at least one. */
  predicate NearestFrom1(x: real, n: int) { n >= 1 && (Nearest(x, n) || (n == 1 && x < 0.5)) }

  ghost predicate RoundedFrom1(j: Json, n: int) { exists x :: ReadsNumber(j, x) && x > 0.0 && NearestFrom1(x, n) }

  /** A number above zero, rounded, and at least one. */
  ghost predicate PositiveFrom(j: Json, v: Json) {
    match v
    case Num(x) => exists n :: RoundedFrom1(j, n) && x == n as real
    case Undef => forall x :: ReadsNumber(j, x) ==> x <= 0.0
    case _ => false
  }

  lemma {:induction false} PositiveRounds(x: real)
    requires x > 0.0
    ensures NearestFrom1(x, if Round(x) < 1 then 1 else Round(x))
  {
    RoundIsNearest(x, Round(x));
  }

  lemma {:induction false} PositiveIsFrom(j: Json)
    ensures PositiveFrom(j, OfInt(RoundedPositive(j)))
  {
    hide ToFiniteNumber, ReadsNumber, Round, NearestFrom1;
    forall x ensures ToFiniteNumber(j) == Some(x) <==> ReadsNumber(j, x) {
      FiniteNumberMatches(j, x);
    }
    var number := ToFiniteNumber(j);
    if number.Some? && number.value > 0.0 {
      assert ReadsNumber(j, number.value);
      PositiveRounds(number.value);
      assert RoundedFrom1(j, RoundedPositive(j).value);
    }
  }

  /** The rounded number, and without one the position of the entry. */
  ghost predicate OrderFrom(j: Json, position: nat, v: Json) {
    || (v.Num? && exists n :: RoundedFrom0(j, n) && v.num == n as real)
    || (v == Num(position as real) && forall n :: !RoundedFrom0(j, n))
  }

  lemma {:induction false} OrderIsFrom(j: Json, position: nat)
    ensures
      var whole := ToNonNegativeInteger(j);
      OrderFrom(j, position, if whole.Some? then Num(whole.value as real) else Num(position as real))
  {
    WholeIsFrom(j);
    hide ToNonNegativeInteger, RoundedFrom0;
  }

  // ---------------------------------------------------------------- keys and lists

  /** The text is written for this key. */
  ghost predicate WrittenFor(j: Json, key: string) { exists t :: TextOf(j, t) && KeyText(t, key) }

  /** One of the allowed keys. */
  ghost predicate KeyFrom(allowed: seq<string>, j: Json, v: Json) {
    match v
    case Str(key) => key in allowed && WrittenFor(j, key)
    case Undef => forall key :: key in allowed ==> !WrittenFor(j, key)
    case _ => false
  }

  lemma {:induction false} KeyIsFrom(allowed: seq<string>, j: Json)
    ensures KeyFrom(allowed, j, OfText(NormalizeEnumValue(j, allowed)))
  {
    hide NormalizeEnumValue, WrittenFor;
    forall key ensures NormalizeEnumValue(j, allowed) == Some(key) <==> key in allowed && WrittenFor(j, key) {
      KeyIsWritten(allowed, j, key);
    }
  }

  lemma {:induction false} KeyIsWritten(allowed: seq<string>, j: Json, key: string)
    ensures NormalizeEnumValue(j, allowed) == Some(key) <==> key in allowed && WrittenFor(j, key)
  {
    hide NormalizeEnumValue, TextOf, KeyText;
    EnumValueExactly(j, allowed, key);
  }

  /** A list holds what is found, each once, by first position; it is absent when nothing is. */
  ghost predicate ListFrom(at: (int, string) -> bool, v: Json) {
    match v
    case Arr(items) => AllStr(items) && items != [] && InOrder(at, Texts(items))
    case Undef => forall i, t :: !at(i, t)
    case _ => false
  }

  function NoEntry(): (int, string) -> bool { (i: int, t: string) => false }

  function EntriesOfArray(j: Json): (int, string) -> bool { if j.Arr? then ArrayEntry(j.items) else NoEntry() }

  /** The pieces of a text, the entries of an array. */
  function EntriesOf(j: Json): (int, string) -> bool {
    if j.Str? && Trim(j.text) != "" then TextEntry(Trim(j.text)) else EntriesOfArray(j)
  }

  lemma {:induction false} SomeListIsFrom(at: (int, string) -> bool, texts: Option<seq<string>>)
    requires texts.None? ==> forall i, t :: !at(i, t)
    requires texts.Some? ==> texts.value != [] && InOrder(at, texts.value)
    ensures ListFrom(at, OfTexts(texts))
  {
    if texts.Some? { assert Texts(Strs(texts.value)) == texts.value; }
  }

  lemma {:induction false} ArrayIsFrom(j: Json)
    ensures ListFrom(EntriesOfArray(j), OfTexts(NormalizeStringArray(j)))
  {
    StringListIsClean(j);
    hide NormalizeStringArray, InOrder, ArrayEntry;
    if j.Arr? { StringArrayExactly(j.items); } else { NotAnArray(j); }
    SomeListIsFrom(EntriesOfArray(j), NormalizeStringArray(j));
  }

  lemma {:induction false} NotAnArray(j: Json)
    requires !j.Arr?
    ensures NormalizeStringArray(j).None? && forall i, t :: !NoEntry()(i, t)
  {
  }

  lemma {:induction false} ListIsFrom(j: Json)
    ensures ListFrom(EntriesOf(j), OfTexts(NormalizeStringList(j)))
  {
    StringListIsClean(j);
    hide NormalizeStringArray, NormalizeStringList, InOrder, ArrayEntry, TextEntry, Trim;
    if j.Str? && Trim(j.text) != "" {
      StringListExactly(j);
      SomeListIsFrom(EntriesOf(j), NormalizeStringList(j));
    } else {
      ElseAsArray(j);
      ArrayIsFrom(j);
    }
  }

  /** The allowed keys among the entries. */
  function KeysOf(allowed: seq<string>, j: Json): (int, string) -> bool {
    var entries := NormalizeStringList(j);
    if entries.Some? then KeyEntry(entries.value, allowed) else NoEntry()
  }

  lemma {:induction false} KeysAreFrom(allowed: seq<string>, j: Json)
    ensures ListFrom(KeysOf(allowed, j), OfTexts(NormalizeEnumValues(j, allowed)))
  {
    hide InOrder, KeyEntry, NormalizeStringList, AllowedOnly, Dedup;
    EnumValuesExactly(j, allowed);
    NothingIsEmpty(j, allowed);
    SomeListIsFrom(KeysOf(allowed, j), NormalizeEnumValues(j, allowed));
  }

  lemma {:induction false} NothingIsEmpty(j: Json, allowed: seq<string>)
    ensures NormalizeEnumValues(j, allowed).Some? ==> NormalizeEnumValues(j, allowed).value != []
  {
    hide NormalizeStringList;
    var entries := NormalizeStringList(j);
    if entries.Some? && AllowedOnly(entries.value, allowed) != [] {
      DedupKeepsSome(AllowedOnly(entries.value, allowed));
    }
  }

  lemma {:induction false} DedupKeepsSome(items: seq<string>)
    requires items != []
    ensures Dedup(items) != []
  {
    DedupKeepsFirstOccurrences(items);
    assert items[0] in items;
    assert items[0] in Dedup(items);
  }

  /** An image is a text, or else a list of texts. */
  ghost predicate ImageFrom(j: Json, v: Json) {
    if HasText(j) then v.Str? && TextOf(j, v.text) else ListFrom(EntriesOfArray(j), v)
  }

  lemma {:induction false} ImageIsFrom(j: Json)
    ensures ImageFrom(j, NormalizeImage(j))
  {
    hide ToNonEmptyString, TextOf, HasText, NormalizeStringArray, ListFrom, EntriesOfArray;
    HasTextMatches(j);
    ArrayIsFrom(j);
  }

  // ---------------------------------------------------------------- records

  /** A flag that is one. */
  predicate FlagFrom(j: Json, v: Json) { v == if j == Bool(true) || j == Bool(false) then j else Undef }

  /** Six texts, none of them required, but one at least. */
  ghost predicate NutritionFrom(nutrients: set<Key>, j: Json, v: Json) {
    if v.Obj? then
      && j.Obj? && v.fields.Keys == nutrients
      && (forall k :: k in nutrients ==> TextFrom(j.fields, [k], v.fields[k]))
      && (exists k :: k in nutrients && HasText(Get(j.fields, k)))
    else v.Undef? && (!j.Obj? || forall k :: k in nutrients ==> !HasText(Get(j.fields, k)))
  }

  lemma {:induction false} NutritionIsFrom(j: Json)
    ensures NutritionFrom(NUTRIENTS, j, NormalizeNutrition(j))
  {
    hide ToNonEmptyString, HasText, TextFrom;
    if j.Obj? {
      forall k
        ensures HasText(Get(j.fields, k)) <==> ToNonEmptyString(Get(j.fields, k)).Some?
        ensures TextFrom(j.fields, [k], OfText(ToNonEmptyString(Get(j.fields, k))))
      {
        HasTextMatches(Get(j.fields, k));
        TextIsFrom(j.fields, k);
      }
      var record := map k | k in NUTRIENTS :: OfText(ToNonEmptyString(Get(j.fields, k)));
      forall k | k in NUTRIENTS ensures record[k] != Undef <==> HasText(Get(j.fields, k)) {
      }
      if k :| k in record && !record[k].Undef? { assert HasText(Get(j.fields, k)); }
      if k :| k in NUTRIENTS && HasText(Get(j.fields, k)) { assert k in record && !record[k].Undef?; }
    }
  }

  predicate NoUndef(f: Fields) { forall k :: k in f ==> f[k] != Undef }

  lemma {:induction false} SomeTextSomewhere(entry: Fields, keys: seq<Key>, t: string)
    requires TextFrom(entry, keys, Str(t))
    ensures !TextFrom(entry, keys, Undef)
  {
    hide TextOf;
    var i :| EarliestText(entry, keys, i, t);
    assert HasText(Get(entry, keys[i]));
  }

  /** What an ingredient record says about the record it was read from; names and raw text have several sources. */
  ghost predicate IngredientFrom(names: seq<Key>, raws: seq<Key>, entry: Fields, position: nat, f: Fields) {
    && f.Keys <= INGREDIENT_KEYS && NoUndef(f)
    && TextFrom(entry, names, Get(f, Key.Name)) && TextFrom(entry, raws, Get(f, Key.Raw))
    && NumberFrom(FirstGiven(entry, Key.Quantity, Key.Amount), Get(f, Key.Quantity))
    && TextFrom(entry, [Key.Unit], Get(f, Key.Unit)) && TextFrom(entry, [Key.Note], Get(f, Key.Note))
    && FlagFrom(Get(entry, Key.Optional), Get(f, Key.Optional))
    && OrderFrom(FirstGiven(entry, Key.Order, Key.Index), position, Get(f, Key.Order))
  }
}
