/** Which entries a list reader finds, in which order, and how enumeration keys may be written. */
module ListEntries {
  import opened Text
  import opened Json
  import opened Lists

  // ---------------------------------------------------------------- first occurrences by position

  /** The entries that `at` finds at positions: each once, ordered by the first position of each. */
  ghost predicate InOrder(at: (int, string) -> bool, out: seq<string>) {
    && Distinct(out)
    && (forall t :: t in out <==> exists i :: at(i, t))
    && (forall p, q :: 0 <= p < q < |out| ==> ComesFirst(at, out[p], out[q]))
  }

  ghost predicate ComesFirst(at: (int, string) -> bool, t: string, u: string) {
    exists i :: at(i, t) && forall j :: at(j, u) ==> i < j
  }

  /** `found` holds what `at` finds, in the order of increasing positions. */
  ghost predicate Collects(at: (int, string) -> bool, found: seq<string>, positions: seq<int>) {
    && |positions| == |found|
    && (forall k :: 0 <= k < |found| ==> at(positions[k], found[k]))
    && (forall k, l :: 0 <= k < l < |found| ==> positions[k] < positions[l])
    && (forall i, t :: at(i, t) ==> exists k :: Holds(found, positions, k, i, t))
  }

  predicate Holds(found: seq<string>, positions: seq<int>, k: int, i: int, t: string) {
    0 <= k < |found| == |positions| && positions[k] == i && found[k] == t
  }

  /** One more position behind those collected, with something to find there or not. */
  lemma {:induction false} CollectsNext(
      before: (int, string) -> bool, at: (int, string) -> bool, found: seq<string>, positions: seq<int>, n: int,
      last: Option<string>)
    requires Collects(before, found, positions)
    requires forall i, t :: at(i, t) <==> before(i, t) || (i == n && last == Some(t))
    requires forall i, t :: before(i, t) ==> i < n
    ensures last.None? ==> Collects(at, found, positions)
    ensures last.Some? ==> Collects(at, found + [last.value], positions + [n])
  {
    if last.Some? {
      var found', positions' := found + [last.value], positions + [n];
      forall i, t | at(i, t) ensures exists k :: Holds(found', positions', k, i, t) {
        if before(i, t) {
          var k :| Holds(found, positions, k, i, t);
          assert Holds(found', positions', k, i, t);
        } else {
          assert Holds(found', positions', |found|, i, t);
        }
      }
      forall k | 0 <= k < |found'| ensures at(positions'[k], found'[k]) {
        if k < |found| {
          var i, t := positions[k], found[k];
          assert before(i, t) && at(i, t);
        }
      }
    }
  }

  /** One more position before those collected. */
  lemma {:induction false} CollectsBefore(
      behind: (int, string) -> bool, at: (int, string) -> bool, found: seq<string>, positions: seq<int>, n: int,
      first: Option<string>)
    requires Collects(behind, found, positions)
    requires forall i, t :: at(i, t) <==> behind(i, t) || (i == n && first == Some(t))
    requires forall i, t :: behind(i, t) ==> n < i
    ensures first.None? ==> Collects(at, found, positions)
    ensures first.Some? ==> Collects(at, [first.value] + found, [n] + positions)
  {
    if first.Some? {
      var found', positions' := [first.value] + found, [n] + positions;
      forall i, t | at(i, t) ensures exists k :: Holds(found', positions', k, i, t) {
        if behind(i, t) {
          var k :| Holds(found, positions, k, i, t);
          var k' := k + 1;
          assert positions'[k'] == positions[k] && found'[k'] == found[k];
          assert Holds(found', positions', k', i, t);
        } else {
          assert Holds(found', positions', 0, i, t);
        }
      }
      forall k | 0 <= k < |found'| ensures at(positions'[k], found'[k]) {
        if k > 0 {
          var i, t := positions[k - 1], found[k - 1];
          assert behind(i, t) && at(i, t);
        }
      }
    }
  }

  /** Removing repetitions from what was collected leaves the entries by first position. */
  lemma {:induction false} DedupIsInOrder(at: (int, string) -> bool, found: seq<string>, positions: seq<int>)
    requires Collects(at, found, positions)
    ensures InOrder(at, Dedup(found))
  {
    hide Dedup;
    DedupKeepsFirstOccurrences(found);
    var out := Dedup(found);
    forall t ensures t in out <==> exists i :: at(i, t) {
      if t in found {
        var k :| 0 <= k < |found| && found[k] == t;
        assert at(positions[k], t);
      }
    }
    forall p, q | 0 <= p < q < |out| ensures ComesFirst(at, out[p], out[q]) {
      assert out[p] in out && out[q] in out;
      FirstPositions(at, found, positions, out[p], out[q]);
    }
  }

  lemma {:induction false} FirstPositions(
      at: (int, string) -> bool, found: seq<string>, positions: seq<int>, t: string, u: string)
    requires Collects(at, found, positions) && t in found && u in found && IndexOf(found, t) < IndexOf(found, u)
    ensures ComesFirst(at, t, u)
  {
    var k, l := IndexOf(found, t), IndexOf(found, u);
    assert at(positions[k], t);
    forall j | at(j, u) ensures positions[k] < j {
      var m :| Holds(found, positions, m, j, u);
      assert l <= m;
    }
  }

  lemma {:induction false} WhatIsFoundIsHeld(
      at: (int, string) -> bool, found: seq<string>, positions: seq<int>, i: int, t: string)
    requires Collects(at, found, positions) && at(i, t)
    ensures found != []
  {
    var k :| Holds(found, positions, k, i, t);
  }

  lemma {:induction false} NothingFound(at: (int, string) -> bool, found: seq<string>, positions: seq<int>)
    requires Collects(at, found, positions)
    ensures found == [] ==> forall i, t :: !at(i, t)
    ensures found != [] ==> exists i, t :: at(i, t)
  {
    if found != [] {
      var i, t := positions[0], found[0];
      assert at(i, t);
    } else {
      forall i, t ensures !at(i, t) {
        if at(i, t) { WhatIsFoundIsHeld(at, found, positions, i, t); }
      }
    }
  }

  // ---------------------------------------------------------------- arrays

  /** The text of an entry of an array. */
  function ArrayEntry(items: seq<Json>): (int, string) -> bool {
    (i: int, t: string) => 0 <= i < |items| && ToNonEmptyString(items[i]) == Some(t)
  }

  lemma {:induction false} ArrayCollects(items: seq<Json>) returns (positions: seq<int>)
    ensures Collects(ArrayEntry(items), NonEmptyStrings(items), positions)
  {
    if items == [] {
      positions := [];
    } else {
      var n := |items| - 1;
      var front := ArrayCollects(items[..n]);
      NonEmptyLast(items);
      var last := ToNonEmptyString(items[n]);
      positions := if last.Some? then front + [n] else front;
      hide ToNonEmptyString, NonEmptyStrings, Collects;
      CollectsNext(ArrayEntry(items[..n]), ArrayEntry(items), NonEmptyStrings(items[..n]), front, n, last);
      assert NonEmptyStrings(items[..n]) + [] == NonEmptyStrings(items[..n]);
    }
  }

  lemma {:induction false} NonEmptyLast(items: seq<Json>)
    requires items != []
    ensures
      var n := |items| - 1;
      var last := ToNonEmptyString(items[n]);
      NonEmptyStrings(items) == NonEmptyStrings(items[..n]) + if last.Some? then [last.value] else []
  {
    hide ToNonEmptyString;
    var n := |items| - 1;
    if n == 0 {
      assert items[..0] == [] && items[1..] == [];
    } else {
      NonEmptyLast(items[1..]);
      assert items[1..][..n - 1] == items[..n][1..] && items[1..][n - 1] == items[n];
    }
  }

  /** An array is read as the texts of its entries, each once, by first position; absent exactly when it has none. */
  lemma {:induction false} StringArrayExactly(items: seq<Json>)
    ensures
      var r := NormalizeStringArray(Arr(items));
      && (r.None? <==> forall i, t :: !ArrayEntry(items)(i, t))
      && (r.Some? ==> InOrder(ArrayEntry(items), r.value))
  {
    hide NonEmptyStrings, Dedup, ToNonEmptyString, ArrayEntry;
    var positions := ArrayCollects(items);
    DedupIsInOrder(ArrayEntry(items), NonEmptyStrings(items), positions);
    NothingFound(ArrayEntry(items), NonEmptyStrings(items), positions);
  }

  // ---------------------------------------------------------------- delimited text

  /** A stretch of text between delimiters, or between one and an end of the text. */
  predicate PieceAt(s: string, a: int, b: int) {
    && 0 <= a <= b <= |s| && NoDelimiter(s[a..b])
    && (a == 0 || IsDelimiter(s[a - 1])) && (b == |s| || IsDelimiter(s[b]))
  }

  /** The text of the piece that starts at a position. */
  function TextEntry(s: string): (int, string) -> bool {
    (a: int, t: string) =>
      exists b :: 0 <= a <= b <= |s| && PieceAt(s, a, b) && ToNonEmptyString(Str(s[a..b])) == Some(t)
  }

  predicate FoundFrom(at: (int, string) -> bool, k: int, i: int, t: string) { k <= i && at(i, t) }

  /** What `at` finds from position `k` on. */
  function From(at: (int, string) -> bool, k: int): (int, string) -> bool {
    (i: int, t: string) => FoundFrom(at, k, i, t)
  }

  lemma {:induction false} OnePiece(s: string, k: nat, b: int)
    requires k <= |s| && (k == 0 || IsDelimiter(s[k - 1]))
    ensures PieceAt(s, k, b) <==> b == k + PieceLength(s[k..])
  {
    var n := PieceLength(s[k..]);
    assert s[k..][..n] == s[k..k + n];
    NoneInside(s, k, k + n);
    if PieceAt(s, k, b) { NoneInside(s, k, b); }
  }

  lemma {:induction false} NoneInside(s: string, a: nat, b: nat)
    requires a <= b <= |s| && NoDelimiter(s[a..b])
    ensures forall j :: a <= j < b ==> !IsDelimiter(s[j])
  {
    assert forall j :: a <= j < b ==> s[j] == s[a..b][j - a];
  }

  lemma {:induction false} PiecesFrom(s: string, k: nat, i: int, t: string)
    requires k <= |s| && (k == 0 || IsDelimiter(s[k - 1]))
    ensures
      var e := k + PieceLength(s[k..]);
      FoundFrom(TextEntry(s), k, i, t) <==>
        (i == k && ToNonEmptyString(Str(s[k..e])) == Some(t)) || FoundFrom(TextEntry(s), e + 1, i, t)
  {
    hide ToNonEmptyString, PieceAt;
    var e := k + PieceLength(s[k..]);
    OnePiece(s, k, e);
    if i == k {
      forall b | PieceAt(s, k, b) ensures b == e { OnePiece(s, k, b); }
    } else if k < i <= e {
      NoPieceInside(s, k, e, i);
    }
  }

  lemma {:induction false} NoPieceInside(s: string, k: nat, e: int, i: int)
    requires PieceAt(s, k, e) && k < i <= e
    ensures forall b :: !PieceAt(s, i, b)
  {
    NoneInside(s, k, e);
  }

  lemma {:induction false} TextCollects(s: string, k: nat) returns (positions: seq<int>)
    requires k <= |s| && (k == 0 || IsDelimiter(s[k - 1]))
    ensures Collects(From(TextEntry(s), k), Clean(SplitEach(s[k..])), positions)
    decreases |s| - k
  {
    hide Clean, SplitEach, Trim, TextEntry, Collects, PieceLength;
    var e := k + PieceLength(s[k..]);
    SplitsFirst(s, k);
    var head := HeadEntry(s[k..e]);
    if e == |s| {
      positions := if head != [] then [k] else [];
      Collected(s, k, e, head, [], []);
      assert [k] + [] == [k] && head + [] == head;
    } else {
      var rest := TextCollects(s, e + 1);
      positions := if head != [] then [k] + rest else rest;
      Collected(s, k, e, head, Clean(SplitEach(s[e + 1..])), rest);
    }
  }

  function HeadEntry(piece: string): seq<string> { if Trim(piece) != "" then [Trim(piece)] else [] }

  /** The first piece, and what is behind its delimiter. */
  lemma {:induction false} SplitsFirst(s: string, k: nat)
    requires k <= |s|
    ensures
      var e := k + PieceLength(s[k..]);
      Clean(SplitEach(s[k..])) == HeadEntry(s[k..e]) + if e == |s| then [] else Clean(SplitEach(s[e + 1..]))
  {
    hide Trim, PieceLength;
    var t, n := s[k..], PieceLength(s[k..]);
    assert t[..n] == s[k..k + n];
    if n == |t| {
      var one: seq<string> := [t];
      assert one[1..] == [] && Clean(one) == HeadEntry(t) + Clean(one[1..]);
      assert t[..n] == t;
    } else {
      assert t[n + 1..] == s[k + n + 1..];
      assert ([t[..n]] + SplitEach(t[n + 1..]))[1..] == SplitEach(t[n + 1..]);
    }
  }

  lemma {:induction false} Collected(s: string, k: nat, e: nat, head: seq<string>, tail: seq<string>, rest: seq<int>)
    requires k <= |s| && (k == 0 || IsDelimiter(s[k - 1])) && e == k + PieceLength(s[k..])
    requires head == HeadEntry(s[k..e])
    requires if e == |s| then tail == [] && rest == [] else Collects(From(TextEntry(s), e + 1), tail, rest)
    ensures Collects(From(TextEntry(s), k), head + tail, if head != [] then [k] + rest else rest)
  {
    hide TextEntry, Trim, Collects, FoundFrom;
    var at, behind, first := From(TextEntry(s), k), From(TextEntry(s), e + 1), ToNonEmptyString(Str(s[k..e]));
    forall i, t ensures at(i, t) <==> behind(i, t) || (i == k && first == Some(t)) {
      PiecesFrom(s, k, i, t);
    }
    forall i, t | behind(i, t) ensures k < i {
      FoundBehind(TextEntry(s), e + 1, i, t);
    }
    if e == |s| { NothingBehind(s); }
    CollectsBefore(behind, at, tail, rest, k, first);
    assert [] + tail == tail;
  }

  lemma {:induction false} FoundBehind(at: (int, string) -> bool, k: int, i: int, t: string)
    requires FoundFrom(at, k, i, t)
    ensures k <= i
  {
  }

  lemma {:induction false} NothingBehind(s: string)
    ensures Collects(From(TextEntry(s), |s| + 1), [], [])
  {
  }

  /** A text is read as its trimmed pieces between delimiters, each once, by first position. */
  lemma {:induction false} StringListExactly(value: Json)
    requires value.Str? && Trim(value.text) != ""
    ensures
      var at := TextEntry(Trim(value.text));
      var r := NormalizeStringList(value);
      && (r.None? <==> forall i, t :: !at(i, t))
      && (r.Some? ==> InOrder(at, r.value))
  {
    hide Clean, Dedup, TextEntry, Trim, SplitRuns, SplitEach;
    var s := Trim(value.text);
    RunsAndSinglesAgree(s);
    var positions := TextCollects(s, 0);
    assert s[0..] == s;
    var at, found := From(TextEntry(s), 0), Clean(SplitEach(s));
    forall i, t ensures at(i, t) <==> TextEntry(s)(i, t) {
      EntriesFrom0(s, i, t);
    }
    SameCollection(at, TextEntry(s), found, positions);
    DedupIsInOrder(TextEntry(s), found, positions);
    NothingFound(TextEntry(s), found, positions);
  }

  lemma {:induction false} EntriesFrom0(s: string, i: int, t: string)
    ensures TextEntry(s)(i, t) ==> 0 <= i
  {
  }

  lemma {:induction false} SameCollection(
      a: (int, string) -> bool, b: (int, string) -> bool, found: seq<string>, positions: seq<int>)
    requires Collects(a, found, positions) && forall i, t :: a(i, t) <==> b(i, t)
    ensures Collects(b, found, positions)
  {
  }

  /** Anything but text with something in it is read as an array. */
  lemma {:induction false} ElseAsArray(value: Json)
    requires !value.Str? || Trim(value.text) == ""
    ensures NormalizeStringList(value) == NormalizeStringArray(value)
    ensures !value.Arr? ==> NormalizeStringArray(value).None?
  {
  }

  // ---------------------------------------------------------------- enumeration keys

  predicate AllBreaks(s: string) { forall i :: 0 <= i < |s| ==> KeyBreak(s[i]) }

  predicate NoBreak(s: string) { forall i :: 0 <= i < |s| ==> !KeyBreak(s[i]) }

  /** `key` is `t` in capitals, with one underscore for each run of white space and hyphens. */
  ghost predicate KeyText(t: string, key: string)
    decreases |t|
  {
    || (NoBreak(t) && key == UpperText(t))
    || exists w, g, rest, tail ::
         KeyParts(t, w, g, rest) && |rest| < |t| && key == UpperText(w) + "_" + tail && KeyText(rest, tail)
  }

  predicate KeyParts(t: string, w: string, g: string, rest: string) {
    && t == w + g + rest && NoBreak(w) && g != "" && AllBreaks(g) && (rest != "" ==> !KeyBreak(rest[0]))
  }

  lemma {:induction false} UpperConcat(a: string, b: string)
    ensures UpperText(a + b) == UpperText(a) + UpperText(b)
  {
  }

  lemma {:induction false} UpperKeepsBreaks(s: string)
    ensures NoBreak(UpperText(s)) <==> NoBreak(s)
    ensures AllBreaks(UpperText(s)) <==> AllBreaks(s)
    ensures s != "" ==> (KeyBreak(UpperText(s)[0]) <==> KeyBreak(s[0]))
  {
    hide UpperText;
    forall i | 0 <= i < |s| ensures KeyBreak(UpperText(s)[i]) <==> KeyBreak(s[i]) {
    }
  }

  lemma {:induction false} WordIsKept(w: string, rest: string)
    requires NoBreak(w)
    ensures Underscored(w + rest) == w + Underscored(rest)
  {
    if w == "" {
      assert w + rest == rest;
    } else {
      WordIsKept(w[1..], rest);
      assert (w + rest)[1..] == w[1..] + rest;
      assert w == [w[0]] + w[1..];
    }
  }

  lemma {:induction false} GapIsOne(g: string, rest: string)
    requires g != "" && AllBreaks(g) && (rest != "" ==> !KeyBreak(rest[0]))
    ensures Underscored(g + rest) == "_" + Underscored(rest)
  {
    var s := g + rest;
    assert s[1..] == g[1..] + rest;
    if |g| == 1 {
      assert s[1..] == rest;
    } else {
      GapIsOne(g[1..], rest);
    }
  }

  lemma {:induction false} PartsAreRead(w: string, g: string, rest: string)
    requires KeyParts(w + g + rest, w, g, rest)
    ensures Underscored(UpperText(w + g + rest)) == UpperText(w) + "_" + Underscored(UpperText(rest))
  {
    hide UpperText, Underscored;
    UpperConcat(w, g); UpperConcat(w + g, rest);
    UpperKeepsBreaks(w); UpperKeepsBreaks(g); UpperKeepsBreaks(rest);
    var a, b, c := UpperText(w), UpperText(g), UpperText(rest);
    assert a + b + c == a + (b + c);
    WordIsKept(a, b + c);
    GapIsOne(b, c);
    assert a + ("_" + Underscored(c)) == a + "_" + Underscored(c);
  }

  lemma {:induction false} BreakRun(s: string) returns (n: nat)
    ensures n <= |s| && AllBreaks(s[..n]) && (n < |s| ==> !KeyBreak(s[n]))
  {
    n := 0;
    while n < |s| && KeyBreak(s[n])
      invariant n <= |s| && AllBreaks(s[..n])
    {
      n := n + 1;
    }
  }

  lemma {:induction false} WordRun(s: string) returns (n: nat)
    ensures n <= |s| && NoBreak(s[..n]) && (n < |s| ==> KeyBreak(s[n]))
  {
    n := 0;
    while n < |s| && !KeyBreak(s[n])
      invariant n <= |s| && NoBreak(s[..n])
    {
      n := n + 1;
    }
  }

  /** The key of a text is the only one the text can be written for. */
  lemma {:induction false} KeyExactly(t: string, key: string)
    ensures Underscored(UpperText(t)) == key <==> KeyText(t, key)
    decreases |t|
  {
    hide UpperText, Underscored, KeyBreak;
    if NoBreak(t) {
      UpperKeepsBreaks(t);
      WordIsKept(UpperText(t), "");
      assert UpperText(t) + "" == UpperText(t);
      NothingIsKept();
      forall w, g, rest | KeyParts(t, w, g, rest) ensures false {
        PartsHaveBreak(t, w, g, rest);
      }
    } else {
      var n := WordRun(t);
      var m := BreakRun(t[n..]);
      var w, g, rest := t[..n], t[n..][..m], t[n..][m..];
      assert t == w + g + rest;
      assert n < |t|;
      assert m > 0;
      PartsAreRead(w, g, rest);
      var tail := Underscored(UpperText(rest));
      KeyExactly(rest, tail);
      if Underscored(UpperText(t)) == key { assert KeyParts(t, w, g, rest) && KeyText(rest, tail); }
      forall w', g', rest', tail' | KeyParts(t, w', g', rest') && |rest'| < |t| && KeyText(rest', tail')
        ensures Underscored(UpperText(t)) == UpperText(w') + "_" + tail'
      {
        PartsAreRead(w', g', rest');
        KeyExactly(rest', tail');
      }
    }
  }

  lemma {:induction false} PartsHaveBreak(t: string, w: string, g: string, rest: string)
    requires KeyParts(t, w, g, rest)
    ensures !NoBreak(t)
  {
    assert t[|w|] == g[0];
  }

  lemma {:induction false} NothingIsKept()
    ensures Underscored("") == ""
  {
  }

  /** A value is read as an allowed key exactly when its text is written for that key. */
  lemma {:induction false} EnumValueExactly(value: Json, allowed: seq<string>, key: string)
    ensures NormalizeEnumValue(value, allowed) == Some(key) <==>
      key in allowed && exists t :: TextOf(value, t) && KeyText(t, key)
  {
    hide Underscored, UpperText, KeyText, TextOf, Trim, ToNonEmptyString;
    forall t ensures ToNonEmptyString(value) == Some(t) <==> TextOf(value, t) {
      NonEmptyStringMatches(value, t);
    }
    var text := ToNonEmptyString(value);
    if text.Some? {
      CleanIsTrimmed(value);
      KeyExactly(text.value, key);
      assert TextOf(value, text.value);
    }
  }

  lemma {:induction false} CleanIsTrimmed(value: Json)
    ensures ToNonEmptyString(value).Some? ==> Trim(ToNonEmptyString(value).value) == ToNonEmptyString(value).value
  {
    NonEmptyStringIsClean(value);
    if ToNonEmptyString(value).Some? { TrimIsIdentity(ToNonEmptyString(value).value); }
  }

  function KeyEntry(entries: seq<string>, allowed: seq<string>): (int, string) -> bool {
    (i: int, key: string) => 0 <= i < |entries| && NormalizeEnumValue(Str(entries[i]), allowed) == Some(key)
  }

  lemma {:induction false} AllowedLast(entries: seq<string>, allowed: seq<string>)
    requires entries != []
    ensures
      var n := |entries| - 1;
      var last := NormalizeEnumValue(Str(entries[n]), allowed);
      AllowedOnly(entries, allowed) == AllowedOnly(entries[..n], allowed) + if last.Some? then [last.value] else []
  {
    hide NormalizeEnumValue;
    var n := |entries| - 1;
    if n == 0 {
      assert entries[..0] == [] && entries[1..] == [];
    } else {
      AllowedLast(entries[1..], allowed);
      assert entries[1..][..n - 1] == entries[..n][1..] && entries[1..][n - 1] == entries[n];
    }
  }

  lemma {:induction false} KeysCollect(entries: seq<string>, allowed: seq<string>) returns (positions: seq<int>)
    ensures Collects(KeyEntry(entries, allowed), AllowedOnly(entries, allowed), positions)
  {
    if entries == [] {
      positions := [];
    } else {
      var n := |entries| - 1;
      var front := KeysCollect(entries[..n], allowed);
      AllowedLast(entries, allowed);
      var last := NormalizeEnumValue(Str(entries[n]), allowed);
      positions := if last.Some? then front + [n] else front;
      hide NormalizeEnumValue, AllowedOnly, Collects;
      CollectsNext(
        KeyEntry(entries[..n], allowed), KeyEntry(entries, allowed), AllowedOnly(entries[..n], allowed), front, n,
        last);
      assert AllowedOnly(entries[..n], allowed) + [] == AllowedOnly(entries[..n], allowed);
    }
  }

  /** A list of keys holds those that the entries of the list are written for, each once, by first position. */
  lemma {:induction false} EnumValuesExactly(value: Json, allowed: seq<string>)
    ensures NormalizeStringList(value).None? ==> NormalizeEnumValues(value, allowed).None?
    ensures NormalizeStringList(value).Some? ==>
      var at := KeyEntry(NormalizeStringList(value).value, allowed);
      var r := NormalizeEnumValues(value, allowed);
      && (r.None? <==> forall i, key :: !at(i, key))
      && (r.Some? ==> InOrder(at, r.value))
  {
    hide AllowedOnly, Dedup, KeyEntry, NormalizeStringList;
    if NormalizeStringList(value).Some? {
      var entries := NormalizeStringList(value).value;
      var positions := KeysCollect(entries, allowed);
      DedupIsInOrder(KeyEntry(entries, allowed), AllowedOnly(entries, allowed), positions);
      NothingFound(KeyEntry(entries, allowed), AllowedOnly(entries, allowed), positions);
    }
  }
}
