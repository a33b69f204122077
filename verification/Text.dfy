/** The strings of the recipe normalisers: white space, trimming, words, first occurrences. */
module Text {

  datatype Option<+T> = None | Some(value: T)

  /** White space in the sense of `String.prototype.trim` and of `\s` in a regular expression. */
  predicate IsSpace(c: char) {
    || c == ' '
    || '\t' <= c <= '\r'
    || c == '\U{00A0}' || c == '\U{1680}' || '\U{2000}' <= c <= '\U{200A}'
    || c == '\U{2028}' || c == '\U{2029}' || c == '\U{202F}' || c == '\U{205F}'
    || c == '\U{3000}' || c == '\U{FEFF}'
  }

  /** The characters one by one: tab to carriage return, the blanks, the line and paragraph separators, the mark. */
  lemma {:induction false} WhiteSpaceIs(c: char)
    ensures IsSpace(c) <==>
      || c in "\t\n\U{000B}\U{000C}\r \U{00A0}\U{1680}\U{2028}\U{2029}\U{202F}\U{205F}\U{3000}\U{FEFF}"
      || c in "\U{2000}\U{2001}\U{2002}\U{2003}\U{2004}\U{2005}\U{2006}\U{2007}\U{2008}\U{2009}\U{200A}"
  {
    if '\t' <= c <= '\r' || '\U{2000}' <= c <= '\U{200A}' {
      assert c as int in {9, 10, 11, 12, 13} || c as int - 8192 in {0, 1, 2, 3, 4, 5, 6, 7, 8, 9, 10};
      assert c == c as int as char;
    }
  }

  predicate IsDigit(c: char) { '0' <= c <= '9' }

  /** Case mapping is modelled on the ASCII letters only. */
  function Lower(c: char): char {
    if 'A' <= c <= 'Z' then c - 'A' + 'a' else c
  }

  function Upper(c: char): char {
    if 'a' <= c <= 'z' then c - 'a' + 'A' else c
  }

  predicate IsLetter(c: char) { 'a' <= Lower(c) <= 'z' }

  function LowerText(s: string): (t: string)
    ensures |t| == |s| && forall i :: 0 <= i < |s| ==> t[i] == Lower(s[i])
  {
    if s == "" then "" else [Lower(s[0])] + LowerText(s[1..])
  }

  function UpperText(s: string): (t: string)
    ensures |t| == |s| && forall i :: 0 <= i < |s| ==> t[i] == Upper(s[i])
  {
    if s == "" then "" else [Upper(s[0])] + UpperText(s[1..])
  }

  predicate AllSpace(s: string) { forall i :: 0 <= i < |s| ==> IsSpace(s[i]) }

  predicate AllDigits(s: string) { s != "" && forall i :: 0 <= i < |s| ==> IsDigit(s[i]) }

  // ---------------------------------------------------------------- trimming

  function TrimStart(s: string): string {
    if s != "" && IsSpace(s[0]) then TrimStart(s[1..]) else s
  }

  function TrimEnd(s: string): string {
    if s != "" && IsSpace(s[|s| - 1]) then TrimEnd(s[..|s| - 1]) else s
  }

  function Trim(s: string): string { TrimEnd(TrimStart(s)) }

  predicate Trimmed(s: string) {
    s == "" || (!IsSpace(s[0]) && !IsSpace(s[|s| - 1]))
  }

  lemma {:induction false} TrimStartShape(s: string)
    ensures |TrimStart(s)| <= |s| && TrimStart(s) == s[|s| - |TrimStart(s)|..]
    ensures AllSpace(s[..|s| - |TrimStart(s)|])
    ensures TrimStart(s) != "" ==> !IsSpace(TrimStart(s)[0])
  {
    var t := TrimStart(s);
    if s != "" && IsSpace(s[0]) {
      TrimStartShape(s[1..]);
      var n := |s| - |t|;
      assert s[..n] == [s[0]] + s[1..][..n - 1];
      assert s[n..] == s[1..][n - 1..];
    } else {
      assert s[..0] == "" && s[0..] == s;
    }
  }

  lemma {:induction false} TrimEndShape(s: string)
    ensures |TrimEnd(s)| <= |s| && TrimEnd(s) == s[..|TrimEnd(s)|]
    ensures AllSpace(s[|TrimEnd(s)|..])
    ensures TrimEnd(s) != "" ==> !IsSpace(TrimEnd(s)[|TrimEnd(s)| - 1])
  {
    if s != "" && IsSpace(s[|s| - 1]) {
      var front := s[..|s| - 1];
      TrimEndShape(front);
      assert forall i :: |TrimEnd(s)| <= i < |front| ==> s[i] == front[|TrimEnd(s)|..][i - |TrimEnd(s)|];
    } else {
      assert s[|s|..] == "";
    }
  }

  /** `Trim` removes white space at both ends and nothing else. */
  lemma {:induction false} TrimShape(s: string)
    ensures Trimmed(Trim(s))
    ensures exists a, b :: s == a + Trim(s) + b && AllSpace(a) && AllSpace(b)
    ensures Trim(s) == "" <==> AllSpace(s)
  {
    var t := TrimStart(s);
    TrimStartShape(s);
    TrimEndShape(t);
    var a, b := s[..|s| - |t|], t[|Trim(s)|..];
    assert s == a + Trim(s) + b;
    if Trim(s) == "" {
      assert s == a + b;
    } else {
      assert s[|a|] == Trim(s)[0];
    }
  }

  lemma {:induction false} TrimIsIdentity(s: string)
    requires Trimmed(s)
    ensures TrimStart(s) == s && TrimEnd(s) == s && Trim(s) == s
  {
  }

  /** The only way to cut white space off both ends and leave trimmed, non-empty text is `Trim`. */
  lemma {:induction false} TrimIsUnique(a: string, t: string, b: string)
    requires AllSpace(a) && AllSpace(b) && Trimmed(t) && t != ""
    ensures Trim(a + t + b) == t
  {
    if a != "" {
      assert (a + t + b)[1..] == a[1..] + t + b;
      assert a[0] == (a + t + b)[0];
      TrimIsUnique(a[1..], t, b);
    } else {
      assert a + t + b == t + b;
      TrimEndDrops(t, b);
    }
  }

  lemma {:induction false} TrimStartSkips(a: string, rest: string)
    requires AllSpace(a) && rest != "" && !IsSpace(rest[0])
    ensures TrimStart(a + rest) == rest
  {
    if a == "" {
      assert a + rest == rest;
    } else {
      assert (a + rest)[1..] == a[1..] + rest;
      TrimStartSkips(a[1..], rest);
    }
  }

  lemma {:induction false} TrimEndDrops(t: string, b: string)
    requires AllSpace(b) && Trimmed(t)
    ensures TrimEnd(t + b) == t
  {
    if b == "" {
      assert t + b == t;
    } else {
      var s := t + b;
      assert s[..|s| - 1] == t + b[..|b| - 1];
      TrimEndDrops(t, b[..|b| - 1]);
    }
  }

  lemma {:induction false} SplitStart(t: string) returns (gap: string, r: string)
    ensures r == TrimStart(t) && t == gap + r && AllSpace(gap)
    ensures r != "" ==> !IsSpace(r[0])
  {
    r := TrimStart(t);
    TrimStartShape(t);
    gap := t[..|t| - |r|];
  }

  // ---------------------------------------------------------------- words

  /** A token of a line: what `split(/\s+/)` leaves between white space. */
  predicate IsWord(s: string) {
    s != "" && forall i :: 0 <= i < |s| ==> !IsSpace(s[i])
  }

  predicate AllWords(ws: seq<string>) { forall i :: 0 <= i < |ws| ==> IsWord(ws[i]) }

  /** Length of the longest prefix without white space. */
  function WordLength(s: string): (n: nat)
    ensures n <= |s|
    ensures forall i :: 0 <= i < n ==> !IsSpace(s[i])
    ensures n < |s| ==> IsSpace(s[n])
  {
    if s == "" || IsSpace(s[0]) then 0 else 1 + WordLength(s[1..])
  }

  /** `text.split(/\s+/)` on trimmed, non-empty text. */
  function Words(s: string): (ws: seq<string>)
    requires s != "" && Trimmed(s)
    ensures ws != [] && AllWords(ws)
    decreases |s|
  {
    var n := WordLength(s);
    if n == |s| then [s]
    else
      TrimStartShape(s[n..]);
      SuffixStaysTrimmed(s, n);
      [s[..n]] + Words(TrimStart(s[n..]))
  }

  lemma {:induction false} SuffixStaysTrimmed(s: string, n: nat)
    requires Trimmed(s) && n < |s| && IsSpace(s[n])
    ensures TrimStart(s[n..]) != "" && Trimmed(TrimStart(s[n..])) && |TrimStart(s[n..])| < |s| - n
  {
    var t := s[n..];
    TrimStartShape(t);
    assert t[|t| - 1] == s[|s| - 1];
    assert t[0] == s[n];
    var r := TrimStart(t);
    assert forall k :: 0 <= k < |t| - |r| ==> IsSpace(t[k]);
    assert r[|r| - 1] == t[|t| - 1];
  }

  function Join(ws: seq<string>, separator: string): string {
    if ws == [] then ""
    else if |ws| == 1 then ws[0]
    else ws[0] + separator + Join(ws[1..], separator)
  }

  lemma {:induction false} JoinedWords(ws: seq<string>)
    requires ws != [] && AllWords(ws)
    ensures Join(ws, " ") != "" && Trimmed(Join(ws, " "))
    ensures Words(Join(ws, " ")) == ws
  {
    if |ws| > 1 {
      var rest := Join(ws[1..], " ");
      JoinedWords(ws[1..]);
      assert Join(ws, " ") == ws[0] + " " + rest;
      FirstWord(ws[0], rest);
      assert [ws[0]] + ws[1..] == ws;
    } else {
      WordLengthIs(ws[0], "");
      assert ws[0] + "" == ws[0];
      assert [ws[0]] == ws;
    }
  }

  lemma {:induction false} WordLengthIs(w: string, tail: string)
    requires forall i :: 0 <= i < |w| ==> !IsSpace(w[i])
    requires tail != "" ==> IsSpace(tail[0])
    ensures WordLength(w + tail) == |w|
  {
    if w == "" {
      assert w + tail == tail;
    } else {
      assert (w + tail)[1..] == w[1..] + tail;
      WordLengthIs(w[1..], tail);
    }
  }

  /** A word, any white space, and more text: the word comes first, then the words of the rest. */
  lemma {:induction false} WordThenGap(w: string, gap: string, rest: string)
    requires IsWord(w) && gap != "" && AllSpace(gap) && rest != "" && Trimmed(rest)
    ensures Trimmed(w + gap + rest)
    ensures Words(w + gap + rest) == [w] + Words(rest)
  {
    var s := w + gap + rest;
    assert s == w + (gap + rest);
    assert (gap + rest)[0] == gap[0];
    WordLengthIs(w, gap + rest);
    assert s[0] == w[0] && s[|s| - 1] == rest[|rest| - 1];
    assert s[|w|..] == gap + rest && s[..|w|] == w;
    TrimStartSkips(gap, rest);
  }

  lemma {:induction false} FirstWord(w: string, rest: string)
    requires IsWord(w) && rest != "" && Trimmed(rest)
    ensures Trimmed(w + " " + rest)
    ensures Words(w + " " + rest) == [w] + Words(rest)
  {
    WordThenGap(w, " ", rest);
  }

  // ---------------------------------------------------------------- first occurrences

  /** `[...new Set(items)]`: a JavaScript set keeps the order of first insertion. */
  function Dedup<T(==)>(items: seq<T>): seq<T> {
    if items == [] then []
    else
      var front := Dedup(items[..|items| - 1]);
      var last := items[|items| - 1];
      if last in front then front else front + [last]
  }

  ghost predicate Distinct<T>(items: seq<T>) {
    forall i, j :: 0 <= i < j < |items| ==> items[i] != items[j]
  }

  /** Position of the first occurrence, `items.indexOf(x)`. */
  function IndexOf<T(==)>(items: seq<T>, x: T): (i: nat)
    requires x in items
    ensures i < |items| && items[i] == x
    ensures forall j :: 0 <= j < i ==> items[j] != x
  {
    if items[0] == x then 0 else 1 + IndexOf(items[1..], x)
  }

  /** The reference definition: the same elements, each once, in order of first occurrence. */
  ghost predicate FirstOccurrences<T(!new)>(items: seq<T>, out: seq<T>) {
    && Distinct(out)
    && (forall x :: x in items <==> x in out)
    && (forall i, j :: 0 <= i < j < |out| && out[i] in items && out[j] in items ==>
          IndexOf(items, out[i]) < IndexOf(items, out[j]))
  }

  lemma {:induction false} IndexOfPrefix<T>(front: seq<T>, last: T, x: T)
    requires x in front
    ensures x in front + [last] && IndexOf(front + [last], x) == IndexOf(front, x)
  {
    var s := front + [last];
    var i := IndexOf(front, x);
    assert s[i] == x;
    assert forall k :: 0 <= k < |front| ==> s[k] == front[k];
  }

  lemma {:induction false} DedupKeepsFirstOccurrences<T(!new)>(items: seq<T>)
    ensures FirstOccurrences(items, Dedup(items))
  {
    if items == [] {
    } else {
      var front, last := items[..|items| - 1], items[|items| - 1];
      assert items == front + [last];
      DedupKeepsFirstOccurrences(front);
      var out := Dedup(items);
      assert forall x :: x in items <==> x in front || x == last;
      forall i, j | 0 <= i < j < |out|
        ensures IndexOf(items, out[i]) < IndexOf(items, out[j])
      {
        IndexOfPrefix(front, last, out[i]);
        if out[j] in front {
          IndexOfPrefix(front, last, out[j]);
        }
      }
    }
  }

  /** There is only one such list, so `Dedup` is determined by its properties. */
  lemma {:induction false} FirstOccurrencesIsUnique<T(!new)>(items: seq<T>, a: seq<T>, b: seq<T>)
    requires FirstOccurrences(items, a) && FirstOccurrences(items, b)
    ensures a == b
  {
    SameFrom(items, a, b, 0);
  }

  lemma {:induction false} SameFrom<T(!new)>(items: seq<T>, a: seq<T>, b: seq<T>, n: nat)
    requires FirstOccurrences(items, a) && FirstOccurrences(items, b)
    requires n <= |a| && n <= |b| && a[..n] == b[..n]
    ensures a == b
    decreases |a| - n
  {
    if n < |a| {
      SameNext(items, a, b, n);
      assert a[..n + 1] == a[..n] + [a[n]] && b[..n + 1] == b[..n] + [b[n]];
      SameFrom(items, a, b, n + 1);
    } else if n < |b| {
      SameNext(items, b, a, n);
    }
  }

  lemma {:induction false} SameNext<T(!new)>(items: seq<T>, a: seq<T>, b: seq<T>, n: nat)
    requires FirstOccurrences(items, a) && FirstOccurrences(items, b)
    requires n < |a| && n <= |b| && a[..n] == b[..n]
    ensures n < |b| && a[n] == b[n]
  {
    assert forall k :: 0 <= k < n ==> a[k] == a[..n][k] && b[k] == b[..n][k];
    assert a[n] in a;
    assert a[n] in items;
    var j :| 0 <= j < |b| && b[j] == a[n];
    assert b[n] in b;
    assert b[n] in items;
    var i :| 0 <= i < |a| && a[i] == b[n];
  }
}
