/** Lists of text given as an array or as one delimited string, and lists of enumeration keys. */
module Lists {
  import opened Text
  import opened Json

  predicate IsDelimiter(c: char) { c == ',' || c == ';' }

  predicate NoDelimiter(s: string) { forall i :: 0 <= i < |s| ==> !IsDelimiter(s[i]) }

  predicate AllDelimiters(s: string) { forall i :: 0 <= i < |s| ==> IsDelimiter(s[i]) }

  function PieceLength(s: string): (n: nat)
    ensures n <= |s| && NoDelimiter(s[..n])
    ensures n < |s| ==> IsDelimiter(s[n])
  {
    if s == "" || IsDelimiter(s[0]) then 0 else 1 + PieceLength(s[1..])
  }

  function DelimiterRun(s: string): (n: nat)
    ensures n <= |s|
    ensures s != "" && IsDelimiter(s[0]) ==> n > 0
  {
    if s == "" || !IsDelimiter(s[0]) then 0 else 1 + DelimiterRun(s[1..])
  }

  /** `s.split(/[,;]+/)` */
  function SplitRuns(s: string): seq<string>
    decreases |s|
  {
    var n := PieceLength(s);
    if n == |s| then [s] else [s[..n]] + SplitRuns(s[n..][DelimiterRun(s[n..])..])
  }

  /** `s.split(/[,;]/)` */
  function SplitEach(s: string): seq<string>
    decreases |s|
  {
    var n := PieceLength(s);
    if n == |s| then [s] else [s[..n]] + SplitEach(s[n + 1..])
  }

  /** `.map((entry) => entry.trim()).filter((entry) => entry.length > 0)` */
  function Clean(pieces: seq<string>): (out: seq<string>)
    ensures forall i :: 0 <= i < |out| ==> CleanText(out[i])
  {
    if pieces == [] then []
    else
      TrimShape(pieces[0]);
      (if Trim(pieces[0]) != "" then [Trim(pieces[0])] else []) + Clean(pieces[1..])
  }

  function NonEmptyStrings(items: seq<Json>): (out: seq<string>)
    ensures forall i :: 0 <= i < |out| ==> CleanText(out[i])
  {
    if items == [] then []
    else
      var head := ToNonEmptyString(items[0]);
      NonEmptyStringIsClean(items[0]);
      (if head.Some? then [head.value] else []) + NonEmptyStrings(items[1..])
  }

  function DistinctOrNone(items: seq<string>): Option<seq<string>> {
    if items == [] then None else Some(Dedup(items))
  }

  function NormalizeStringArray(value: Json): Option<seq<string>> {
    if !value.Arr? then None else DistinctOrNone(NonEmptyStrings(value.items))
  }

  function NormalizeStringList(value: Json): Option<seq<string>> {
    var single := ToNonEmptyString(value);
    if single.Some? then DistinctOrNone(Clean(SplitRuns(single.value))) else NormalizeStringArray(value)
  }

  function NormalizeImage(value: Json): Json {
    var single := ToNonEmptyString(value);
    if single.Some? then Str(single.value) else OfTexts(NormalizeStringArray(value))
  }

  function Strs(texts: seq<string>): (out: seq<Json>)
    ensures |out| == |texts| && forall i :: 0 <= i < |texts| ==> out[i] == Str(texts[i])
  {
    seq(|texts|, i requires 0 <= i < |texts| => Str(texts[i]))
  }

  function OfTexts(texts: Option<seq<string>>): Json {
    match texts case None => Undef case Some(ts) => Arr(Strs(ts))
  }

  // ---------------------------------------------------------------- string and array forms agree

  lemma {:induction false} CleanConcat(a: seq<string>, b: seq<string>)
    ensures Clean(a + b) == Clean(a) + Clean(b)
  {
    if a == [] {
      assert a + b == b;
    } else {
      assert (a + b)[1..] == a[1..] + b;
      CleanConcat(a[1..], b);
    }
  }

  lemma {:induction false} EmptyPieceVanishes(rest: seq<string>)
    ensures Clean([""] + rest) == Clean(rest)
  {
    TrimIsIdentity("");
    assert ([""] + rest)[1..] == rest;
  }

  lemma {:induction false} DelimitersVanish(d: string, rest: string)
    requires AllDelimiters(d)
    ensures Clean(SplitEach(d + rest)) == Clean(SplitEach(rest))
  {
    if d == "" {
      assert d + rest == rest;
    } else {
      var s := d + rest;
      assert s[0] == d[0];
      assert s[1..] == d[1..] + rest;
      assert s[..0] == "";
      EmptyPieceVanishes(SplitEach(s[1..]));
      DelimitersVanish(d[1..], rest);
    }
  }

  /** Splitting at runs of delimiters or at each delimiter leaves the same entries. */
  lemma {:induction false} RunsAndSinglesAgree(s: string)
    ensures Clean(SplitRuns(s)) == Clean(SplitEach(s))
    decreases |s|
  {
    var n := PieceLength(s);
    if n < |s| {
      var t := s[n..];
      var m := DelimiterRun(t);
      DelimiterRunShape(t);
      var d := t[1..m];
      assert s[n + 1..] == d + t[m..];
      DelimitersVanish(d, t[m..]);
      RunsAndSinglesAgree(t[m..]);
      CleanConcat([s[..n]], SplitRuns(t[m..]));
      CleanConcat([s[..n]], SplitEach(s[n + 1..]));
    }
  }

  lemma {:induction false} DelimiterRunShape(t: string)
    ensures AllDelimiters(t[..DelimiterRun(t)])
  {
    if t != "" && IsDelimiter(t[0]) {
      DelimiterRunShape(t[1..]);
      assert t[..DelimiterRun(t)] == [t[0]] + t[1..][..DelimiterRun(t[1..])];
    }
  }

  lemma {:induction false} FirstPiece(piece: string, tail: string)
    requires NoDelimiter(piece)
    requires tail != "" ==> IsDelimiter(tail[0])
    ensures PieceLength(piece + tail) == |piece|
  {
    if piece == "" {
      assert piece + tail == tail;
    } else {
      assert (piece + tail)[1..] == piece[1..] + tail;
      FirstPiece(piece[1..], tail);
    }
  }

  lemma {:induction false} PieceBeforeDelimiters(first: string, separator: string, rest: string)
    requires separator != "" && AllDelimiters(separator) && NoDelimiter(first)
    ensures Clean(SplitEach(first + separator + rest)) == Clean([first]) + Clean(SplitEach(rest))
  {
    hide Clean;
    var s, tail := first + separator + rest, separator[1..] + rest;
    assert s == first + (separator + rest);
    FirstPiece(first, separator + rest);
    assert s[|first| + 1..] == tail && s[..|first|] == first;
    DelimitersVanish(separator[1..], rest);
    CleanConcat([first], SplitEach(tail));
  }

  lemma {:induction false} JoinedPieces(items: seq<string>, separator: string)
    requires separator != "" && AllDelimiters(separator)
    requires forall i :: 0 <= i < |items| ==> NoDelimiter(items[i])
    ensures Clean(SplitEach(Join(items, separator))) == Clean(items)
  {
    hide Clean, AllDelimiters;
    if items == [] {
      EmptyPieceVanishes([]);
      assert [""] + [] == [""];
    } else if |items| == 1 {
      FirstPiece(items[0], "");
      assert items[0] + "" == items[0] && [items[0]] == items;
    } else {
      var first, rest := items[0], Join(items[1..], separator);
      JoinedPieces(items[1..], separator);
      PieceBeforeDelimiters(first, separator, rest);
      CleanConcat([first], items[1..]);
      assert [first] + items[1..] == items;
    }
  }

  lemma {:induction false} SameEntry(a: string, b: string)
    requires Trim(a) == Trim(b)
    ensures Clean([a]) == Clean([b])
  {
  }

  lemma {:induction false} LeadingSpaceVanishes(s: string)
    ensures Clean(SplitEach(TrimStart(s))) == Clean(SplitEach(s))
  {
    hide Clean, TrimEnd, SplitEach;
    if s != "" && IsSpace(s[0]) {
      LeadingSpaceVanishes(s[1..]);
      OneLeadingSpace(s[0], s[1..]);
      assert s == [s[0]] + s[1..];
    }
  }

  lemma {:induction false} SpacedPiece(c: char, t: string)
    requires IsSpace(c)
    ensures PieceLength([c] + t) == PieceLength(t) + 1
    ensures Clean([([c] + t)[..PieceLength(t) + 1]]) == Clean([t[..PieceLength(t)]])
  {
    hide Clean, TrimEnd;
    var s, n := [c] + t, PieceLength(t);
    assert s[1..] == t;
    assert s[..n + 1] == [c] + t[..n];
    assert (s[..n + 1])[1..] == t[..n];
    SameEntry(s[..n + 1], t[..n]);
  }

  lemma {:induction false} OneLeadingSpace(c: char, t: string)
    requires IsSpace(c)
    ensures Clean(SplitEach([c] + t)) == Clean(SplitEach(t))
  {
    hide Clean, Trim, TrimStart, TrimEnd, PieceLength;
    var s, n := [c] + t, PieceLength(t);
    SpacedPiece(c, t);
    if n < |t| {
      assert s[n + 2..] == t[n + 1..];
      CleanConcat([s[..n + 1]], SplitEach(s[n + 2..]));
      CleanConcat([t[..n]], SplitEach(t[n + 1..]));
    } else {
      assert s[..n + 1] == s && t[..n] == t;
    }
  }

  lemma {:induction false} TrimIgnoresLastSpace(s: string)
    requires s != "" && IsSpace(s[|s| - 1])
    ensures Trim(s) == Trim(s[..|s| - 1])
  {
    hide Trim, TrimStart, TrimEnd, IsSpace;
    var front := s[..|s| - 1];
    TrimShape(front); TrimShape(s);
    var a, b :| front == a + Trim(front) + b && AllSpace(a) && AllSpace(b);
    assert s == a + Trim(front) + (b + [s[|s| - 1]]);
    if Trim(front) != "" {
      TrimIsUnique(a, Trim(front), b + [s[|s| - 1]]);
    }
  }

  lemma {:induction false} LastSpaceVanishes(s: string)
    requires s != "" && IsSpace(s[|s| - 1])
    ensures Clean(SplitEach(s[..|s| - 1])) == Clean(SplitEach(s))
    decreases |s|
  {
    hide Trim, TrimStart, TrimEnd;
    var front := s[..|s| - 1];
    var n := PieceLength(s);
    FrontPiece(s);
    if n == |s| {
      TrimIgnoresLastSpace(s);
    } else {
      var t := s[n + 1..];
      assert front[n + 1..] == t[..|t| - 1] && front[..n] == s[..n];
      LastSpaceVanishes(t);
      CleanConcat([s[..n]], SplitEach(t));
      CleanConcat([s[..n]], SplitEach(front[n + 1..]));
    }
  }

  lemma {:induction false} FrontPiece(s: string)
    requires s != "" && IsSpace(s[|s| - 1])
    ensures var front := s[..|s| - 1];
      PieceLength(front) == if PieceLength(s) == |s| then |front| else PieceLength(s)
    ensures PieceLength(s) < |s| ==> PieceLength(s) < |s| - 1
  {
    var front, n := s[..|s| - 1], PieceLength(s);
    if n == |s| {
      assert front + "" == front;
      assert forall i :: 0 <= i < |front| ==> front[i] == s[..n][i];
      FirstPiece(front, "");
    } else {
      assert !IsDelimiter(s[|s| - 1]);
      assert front == s[..n] + front[n..];
      FirstPiece(s[..n], front[n..]);
    }
  }

  lemma {:induction false} TrailingSpaceVanishes(s: string)
    ensures Clean(SplitEach(TrimEnd(s))) == Clean(SplitEach(s))
  {
    if s != "" && IsSpace(s[|s| - 1]) {
      LastSpaceVanishes(s);
      TrailingSpaceVanishes(s[..|s| - 1]);
    }
  }

  lemma {:induction false} ArrayEntries(items: seq<string>)
    ensures NonEmptyStrings(Strs(items)) == Clean(items)
  {
    if items == [] {
    } else {
      ArrayEntries(items[1..]);
      assert Strs(items)[1..] == Strs(items[1..]);
    }
  }

  /**
   * For entries free of delimiters, one text with the entries joined by any delimiters is read like
   * the array of the entries.
   */
  lemma {:induction false} StringAndArrayAgree(items: seq<string>, separator: string)
    requires separator != "" && AllDelimiters(separator)
    requires forall i :: 0 <= i < |items| ==> NoDelimiter(items[i])
    ensures NormalizeStringList(Str(Join(items, separator))) == NormalizeStringArray(Arr(Strs(items)))
  {
    hide Clean, SplitEach, SplitRuns, TrimStart, TrimEnd, Dedup;
    var s := Join(items, separator);
    JoinedPieces(items, separator);
    LeadingSpaceVanishes(s);
    TrailingSpaceVanishes(TrimStart(s));
    RunsAndSinglesAgree(Trim(s));
    ArrayEntries(items);
    if Trim(s) == "" {
      BlankHasNoEntry();
    }
  }

  lemma {:induction false} BlankHasNoEntry()
    ensures Clean(SplitEach("")) == []
  {
    EmptyPieceVanishes([]);
    assert [""] + [] == [""];
  }

  // ---------------------------------------------------------------- clean lists

  /** A list as the normalisers leave it: not empty, entries trimmed, not empty and distinct. */
  ghost predicate CleanList(texts: seq<string>) {
    texts != [] && Distinct(texts) && forall i :: 0 <= i < |texts| ==> CleanText(texts[i])
  }

  lemma {:induction false} DedupIsClean(items: seq<string>)
    requires items != [] && forall i :: 0 <= i < |items| ==> CleanText(items[i])
    ensures CleanList(Dedup(items))
  {
    DedupKeepsFirstOccurrences(items);
    assert items[0] in items;
    assert items[0] in Dedup(items);
    forall i | 0 <= i < |Dedup(items)| ensures CleanText(Dedup(items)[i]) {
      assert Dedup(items)[i] in Dedup(items);
      assert Dedup(items)[i] in items;
    }
  }

  lemma {:induction false} DedupOfDistinct<T(!new)>(items: seq<T>)
    requires Distinct(items)
    ensures Dedup(items) == items
  {
    if items == [] {
    } else {
      DedupOfDistinct(items[..|items| - 1]);
      assert items == items[..|items| - 1] + [items[|items| - 1]];
    }
  }

  /** Both list readers return clean lists and leave clean lists unchanged. */
  lemma {:induction false} StringListIsClean(value: Json)
    ensures NormalizeStringList(value).Some? ==> CleanList(NormalizeStringList(value).value)
    ensures NormalizeStringArray(value).Some? ==> CleanList(NormalizeStringArray(value).value)
  {
    hide CleanList;
    if value.Arr? && NonEmptyStrings(value.items) != [] {
      DedupIsClean(NonEmptyStrings(value.items));
    }
    var single := ToNonEmptyString(value);
    if single.Some? && Clean(SplitRuns(single.value)) != [] {
      DedupIsClean(Clean(SplitRuns(single.value)));
    }
  }

  lemma {:induction false} CleanListIsFixed(texts: seq<string>)
    requires CleanList(texts)
    ensures NormalizeStringArray(Arr(Strs(texts))) == Some(texts)
    ensures NormalizeStringList(Arr(Strs(texts))) == Some(texts)
  {
    ArrayEntries(texts);
    CleanFixed(texts);
    DedupOfDistinct(texts);
  }

  lemma {:induction false} CleanFixed(texts: seq<string>)
    requires forall i :: 0 <= i < |texts| ==> CleanText(texts[i])
    ensures Clean(texts) == texts
  {
    if texts == [] {
    } else {
      TrimIsIdentity(texts[0]);
      CleanFixed(texts[1..]);
    }
  }

  // ---------------------------------------------------------------- enumeration keys

  predicate KeyBreak(c: char) { IsSpace(c) || c == '-' }

  /** `replace(/[\s-]+/g, "_")` */
  function Underscored(s: string): string {
    if s == "" then ""
    else if KeyBreak(s[0]) then
      if |s| > 1 && KeyBreak(s[1]) then Underscored(s[1..]) else "_" + Underscored(s[1..])
    else [s[0]] + Underscored(s[1..])
  }

  function NormalizeEnumKey(value: string): string { Underscored(UpperText(Trim(value))) }

  function NormalizeEnumValue(value: Json, allowed: seq<string>): (r: Option<string>)
    ensures r.Some? ==> r.value in allowed
  {
    var normalized := ToNonEmptyString(value);
    if normalized.None? then None
    else
      var candidate := NormalizeEnumKey(normalized.value);
      if candidate in allowed then Some(candidate) else None
  }

  function AllowedOnly(entries: seq<string>, allowed: seq<string>): (out: seq<string>)
    ensures forall i :: 0 <= i < |out| ==> out[i] in allowed
  {
    if entries == [] then []
    else
      var head := NormalizeEnumValue(Str(entries[0]), allowed);
      (if head.Some? then [head.value] else []) + AllowedOnly(entries[1..], allowed)
  }

  function NormalizeEnumValues(value: Json, allowed: seq<string>): Option<seq<string>> {
    var entries := NormalizeStringList(value);
    if entries.None? then None else DistinctOrNone(AllowedOnly(entries.value, allowed))
  }

  /** The spelling of the allowed keys: capitals and underscores. */
  predicate EnumText(s: string) { s != "" && forall i :: 0 <= i < |s| ==> 'A' <= s[i] <= 'Z' || s[i] == '_' }

  ghost predicate EnumList(allowed: seq<string>, keys: seq<string>) {
    keys != [] && Distinct(keys) && forall i :: 0 <= i < |keys| ==> keys[i] in allowed
  }

  lemma {:induction false} EnumKeyIsFixed(s: string)
    requires EnumText(s)
    ensures CleanText(s) && NormalizeEnumKey(s) == s
  {
    TrimIsIdentity(s);
    assert UpperText(s) == s;
    UnderscoredIsIdentity(s);
  }

  lemma {:induction false} UnderscoredIsIdentity(s: string)
    requires forall i :: 0 <= i < |s| ==> 'A' <= s[i] <= 'Z' || s[i] == '_'
    ensures Underscored(s) == s
  {
    if s == "" {
    } else {
      UnderscoredIsIdentity(s[1..]);
      assert s == [s[0]] + s[1..];
    }
  }

  lemma {:induction false} AllowedKeysStay(keys: seq<string>, allowed: seq<string>)
    requires forall i :: 0 <= i < |keys| ==> keys[i] in allowed && EnumText(keys[i])
    ensures AllowedOnly(keys, allowed) == keys
    ensures forall i :: 0 <= i < |keys| ==> CleanText(keys[i])
  {
    if keys == [] {
    } else {
      EnumKeyIsFixed(keys[0]);
      TrimIsIdentity(keys[0]);
      AllowedKeysStay(keys[1..], allowed);
      assert keys == [keys[0]] + keys[1..];
    }
  }

  /** The result is a non-empty list of distinct allowed keys; such a list is read back unchanged. */
  lemma {:induction false} EnumValuesAreAllowed(value: Json, allowed: seq<string>)
    ensures NormalizeEnumValues(value, allowed).Some? ==>
      EnumList(allowed, NormalizeEnumValues(value, allowed).value)
  {
    var entries := NormalizeStringList(value);
    if entries.Some? && AllowedOnly(entries.value, allowed) != [] {
      var mapped := AllowedOnly(entries.value, allowed);
      DedupKeepsFirstOccurrences(mapped);
      assert mapped[0] in mapped;
      assert mapped[0] in Dedup(mapped);
      forall i | 0 <= i < |Dedup(mapped)| ensures Dedup(mapped)[i] in allowed {
        assert Dedup(mapped)[i] in Dedup(mapped);
        assert Dedup(mapped)[i] in mapped;
      }
    }
  }

  lemma {:induction false} EnumListIsFixed(keys: seq<string>, allowed: seq<string>)
    requires EnumList(allowed, keys) && forall i :: 0 <= i < |allowed| ==> EnumText(allowed[i])
    ensures NormalizeEnumValues(Arr(Strs(keys)), allowed) == Some(keys)
  {
    AllowedKeysStay(keys, allowed);
    CleanListIsFixed(keys);
    DedupOfDistinct(keys);
  }
}
