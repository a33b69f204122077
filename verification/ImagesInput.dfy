/** The input of the images pipeline. */
module ImagesInput {
  // It is validated and normalised by the API, stored with the job, and validated again by the worker.
  import opened Text

  /** A value in a payload: text, or anything else. */
  datatype Raw = Text(text: string) | NotText

  datatype RawList = NoList | NotList | List(items: seq<Raw>)

  /** An object payload; absent and undefined properties are the same to the schema. */
  datatype Payload = NotAnObject | Object(imageRef: Option<Raw>, imageRefs: RawList)

  const MAX_IMAGES: nat := 4

  /** `imageRefSchema`: text that is not blank, trimmed. */
  function ParseRef(raw: Raw): Option<string> {
    if raw.Text? && Trim(raw.text) != "" then Some(Trim(raw.text)) else None
  }

  function ParseRefs(items: seq<Raw>): (r: Option<seq<string>>)
    ensures r.Some? <==> forall i :: 0 <= i < |items| ==> ParseRef(items[i]).Some?
    ensures r.Some? ==> |r.value| == |items| && forall i :: 0 <= i < |items| ==> Some(r.value[i]) == ParseRef(items[i])
  {
    if items == [] then Some([])
    else
      var n := |items| - 1;
      var front := ParseRefs(items[..n]);
      assert forall i :: 0 <= i < n ==> items[..n][i] == items[i];
      if front.None? || ParseRef(items[n]).None? then None
      else Some(front.value + [ParseRef(items[n]).value])
  }

  /** The filter by `indexOf` over the first `n` positions. */
  function KeepFirst(refs: seq<string>, n: nat): seq<string>
    requires n <= |refs|
  {
    if n == 0 then []
    else KeepFirst(refs, n - 1) + (if IndexOf(refs, refs[n - 1]) == n - 1 then [refs[n - 1]] else [])
  }

  function AllRefs(imageRefs: seq<string>, imageRef: Option<string>): seq<string> {
    if imageRef.Some? && imageRef.value != "" then imageRefs + [imageRef.value] else imageRefs
  }

  /** `normalizeImageRefs` */
  function NormalizeImageRefs(imageRefs: seq<string>, imageRef: Option<string>): seq<string> {
    KeepFirst(AllRefs(imageRefs, imageRef), |AllRefs(imageRefs, imageRef)|)
  }

  /** The references of a payload that are trimmed and not blank. */
  function RefsOf(p: Payload): seq<string>
    requires p.Object?
  {
    if p.imageRefs.List? && ParseRefs(p.imageRefs.items).Some? then ParseRefs(p.imageRefs.items).value else []
  }

  function RefOf(p: Payload): Option<string>
    requires p.Object?
  {
    if p.imageRef.Some? then ParseRef(p.imageRef.value) else None
  }

  /** `imagesInputSchema`: the normalised references, None when the payload is refused. */
  function ImagesInputSchema(p: Payload): Option<seq<string>> {
    if p.NotAnObject? || p.imageRefs.NotList? then None
    else if p.imageRef.Some? && ParseRef(p.imageRef.value).None? then None
    else if p.imageRefs.List? && (ParseRefs(p.imageRefs.items).None? || !(1 <= |p.imageRefs.items| <= MAX_IMAGES)) then
      None
    else if p.imageRef.None? && p.imageRefs.NoList? then None
    else Some(NormalizeImageRefs(RefsOf(p), RefOf(p)))
  }

  /** The payload that is stored with the job: the output of the schema. */
  function Stored(refs: seq<string>): Payload {
    Object(None, List(seq(|refs|, i requires 0 <= i < |refs| => Text(refs[i]))))
  }

  // ---------------------------------------------------------------- the filter

  lemma {:induction false} DedupHasSame(items: seq<string>)
    ensures forall x :: x in Dedup(items) <==> x in items
  {
    DedupKeepsFirstOccurrences(items);
  }

  /** Filtering by first `indexOf` is removing repetitions in order. */
  lemma {:induction false} KeepFirstIsDedup(refs: seq<string>, n: nat)
    requires n <= |refs|
    ensures KeepFirst(refs, n) == Dedup(refs[..n])
  {
    if n > 0 {
      hide IndexOf, Dedup;
      KeepFirstIsDedup(refs, n - 1);
      DedupAppend(refs[..n - 1], refs[n - 1]);
      assert refs[..n] == refs[..n - 1] + [refs[n - 1]];
    } else {
      assert refs[..n] == [];
    }
  }

  lemma {:induction false} DedupAppend(front: seq<string>, last: string)
    ensures Dedup(front + [last]) == Dedup(front) + (if last in front then [] else [last])
  {
    assert (front + [last])[..|front|] == front;
    DedupHasSame(front);
  }

  lemma {:induction false} DedupIsIdentity(items: seq<string>)
    requires Distinct(items)
    ensures Dedup(items) == items
  {
    if items == [] {
    } else {
      var n := |items| - 1;
      DedupIsIdentity(items[..n]);
      assert items == items[..n] + [items[n]];
    }
  }

  lemma {:induction false} NormalizeIsDedup(imageRefs: seq<string>, imageRef: Option<string>)
    ensures NormalizeImageRefs(imageRefs, imageRef) == Dedup(AllRefs(imageRefs, imageRef))
  {
    hide KeepFirst, Dedup;
    var refs := AllRefs(imageRefs, imageRef);
    KeepFirstIsDedup(refs, |refs|);
    assert refs[..|refs|] == refs;
  }

  /**
   * The normalised references are the given ones in order, each once; normalising them again
   * changes nothing.
   */
  lemma {:induction false} NormalizeKeepsFirst(imageRefs: seq<string>, imageRef: Option<string>)
    ensures FirstOccurrences(AllRefs(imageRefs, imageRef), NormalizeImageRefs(imageRefs, imageRef))
    ensures var r := NormalizeImageRefs(imageRefs, imageRef); NormalizeImageRefs(r, None) == r
  {
    hide Dedup, NormalizeImageRefs, IndexOf;
    var r := NormalizeImageRefs(imageRefs, imageRef);
    NormalizeIsDedup(imageRefs, imageRef);
    DedupKeepsFirstOccurrences(AllRefs(imageRefs, imageRef));
    NormalizeIsDedup(r, None);
    DedupIsIdentity(r);
  }

  // ---------------------------------------------------------------- what the schema accepts

  /** A value is a reference: text, and `t` is what is left of it without the white space around it. */
  ghost predicate RefersTo(raw: Raw, t: string) {
    raw.Text? && t != "" && Trimmed(t) && exists a, b :: AllSpace(a) && AllSpace(b) && raw.text == a + t + b
  }

  lemma {:induction false} ParseRefMatches(raw: Raw, t: string)
    ensures ParseRef(raw) == Some(t) <==> RefersTo(raw, t)
  {
    hide Trim, IsSpace;
    if raw.Text? {
      TrimShape(raw.text);
      var a, b :| raw.text == a + Trim(raw.text) + b && AllSpace(a) && AllSpace(b);
      if RefersTo(raw, t) {
        var c, d :| AllSpace(c) && AllSpace(d) && raw.text == c + t + d;
        TrimIsUnique(c, t, d);
      }
    }
  }

  ghost predicate IsRef(raw: Raw) { exists t :: RefersTo(raw, t) }

  lemma {:induction false} IsRefMatches(raw: Raw)
    ensures IsRef(raw) <==> ParseRef(raw).Some?
    ensures ParseRef(raw).Some? ==> RefersTo(raw, ParseRef(raw).value)
  {
    hide ParseRef, RefersTo;
    forall t ensures ParseRef(raw) == Some(t) <==> RefersTo(raw, t) {
      ParseRefMatches(raw, t);
    }
    var ref := ParseRef(raw);
    assert ref.Some? ==> RefersTo(raw, ref.value);
  }

  /**
   * Accepted are the objects with a reference, or a list of one to four, or both, and nothing in them
   * that is not a reference.
   */
  lemma {:induction false} AcceptedExactlyWhen(p: Payload)
    ensures ImagesInputSchema(p).Some? <==>
      && p.Object? && !p.imageRefs.NotList? && (p.imageRef.Some? || p.imageRefs.List?)
      && (p.imageRef.Some? ==> IsRef(p.imageRef.value))
      && (p.imageRefs.List? ==>
            1 <= |p.imageRefs.items| <= 4 && forall i :: 0 <= i < |p.imageRefs.items| ==> IsRef(p.imageRefs.items[i]))
  {
    hide ParseRef, IsRef, NormalizeImageRefs;
    forall raw ensures IsRef(raw) <==> ParseRef(raw).Some? {
      IsRefMatches(raw);
    }
  }

  /** The references of the list, in their order, and then the single one. */
  ghost predicate GivenRefs(p: Payload, given: seq<string>) {
    && p.Object?
    && var n := if p.imageRefs.List? then |p.imageRefs.items| else 0;
       && |given| == n + (if p.imageRef.Some? then 1 else 0)
       && (forall i :: 0 <= i < n ==> RefersTo(p.imageRefs.items[i], given[i]))
       && (p.imageRef.Some? ==> RefersTo(p.imageRef.value, given[n]))
  }

  /** The result are the given references, each once, in order of first occurrence. */
  lemma {:induction false} ResultExactly(p: Payload) returns (given: seq<string>)
    requires ImagesInputSchema(p).Some?
    ensures GivenRefs(p, given) && FirstOccurrences(given, ImagesInputSchema(p).value)
  {
    hide ParseRef, RefersTo, NormalizeImageRefs, FirstOccurrences, Trimmed;
    given := AllRefs(RefsOf(p), RefOf(p));
    forall raw | ParseRef(raw).Some? ensures RefersTo(raw, ParseRef(raw).value) && ParseRef(raw).value != "" {
      IsRefMatches(raw);
      RefIsClean(raw);
    }
    NormalizeKeepsFirst(RefsOf(p), RefOf(p));
  }

  // ---------------------------------------------------------------- the second validation

  /** What the schema returns are distinct trimmed references, at least one. */
  lemma {:induction false} RefsAreClean(p: Payload)
    requires ImagesInputSchema(p).Some?
    ensures var refs := ImagesInputSchema(p).value;
      && refs != [] && Distinct(refs)
      && forall i :: 0 <= i < |refs| ==> Trimmed(refs[i]) && refs[i] != ""
  {
    hide NormalizeImageRefs, Trimmed, ParseRef, IndexOf;
    var refs := ImagesInputSchema(p).value;
    var all := AllRefs(RefsOf(p), RefOf(p));
    NormalizeKeepsFirst(RefsOf(p), RefOf(p));
    AllAreClean(p);
    assert all[0] in all;
    forall i | 0 <= i < |refs| ensures Trimmed(refs[i]) && refs[i] != "" {
      assert refs[i] in refs;
    }
  }

  lemma {:induction false} RefIsClean(raw: Raw)
    ensures ParseRef(raw).Some? ==> Trimmed(ParseRef(raw).value) && ParseRef(raw).value != ""
  {
    if raw.Text? { TrimShape(raw.text); }
  }

  lemma {:induction false} AllAreClean(p: Payload)
    requires ImagesInputSchema(p).Some?
    ensures AllRefs(RefsOf(p), RefOf(p)) != []
    ensures forall x :: x in AllRefs(RefsOf(p), RefOf(p)) ==> Trimmed(x) && x != ""
  {
    hide NormalizeImageRefs, Trimmed, ParseRef;
    if p.imageRef.Some? { RefIsClean(p.imageRef.value); }
    forall x | x in RefsOf(p) ensures Trimmed(x) && x != "" {
      var i :| 0 <= i < |RefsOf(p)| && RefsOf(p)[i] == x;
      RefIsClean(p.imageRefs.items[i]);
    }
  }

  lemma {:induction false} CleanRefsParse(refs: seq<string>)
    requires forall i :: 0 <= i < |refs| ==> Trimmed(refs[i]) && refs[i] != ""
    ensures RefsOf(Stored(refs)) == refs && ParseRefs(Stored(refs).imageRefs.items).Some?
  {
    var items := Stored(refs).imageRefs.items;
    forall i | 0 <= i < |items| ensures ParseRef(items[i]) == Some(refs[i]) {
      TrimIsIdentity(refs[i]);
    }
    hide ParseRef;
    assert ParseRefs(items).value == refs;
  }

  /**
   * The worker accepts the stored payload, with the same references, exactly when the normalised
   * list has at most four of them.
   */
  lemma {:induction false} SecondValidation(p: Payload)
    requires ImagesInputSchema(p).Some?
    ensures var refs := ImagesInputSchema(p).value;
      ImagesInputSchema(Stored(refs)) == if |refs| <= MAX_IMAGES then Some(refs) else None
  {
    var refs := ImagesInputSchema(p).value;
    RefsAreClean(p);
    hide NormalizeImageRefs, ParseRefs, Trimmed, RefsOf, Dedup;
    CleanRefsParse(refs);
    NormalizeIsDedup(refs, None);
    DedupIsIdentity(refs);
  }

  /**
   * The refused payloads are those with four different `imageRefs` and an `imageRef` that is none of
   * them: a condition on the payload that the API could check.
   */
  lemma {:induction false} RefusedExactlyWhen(p: Payload)
    requires ImagesInputSchema(p).Some?
    ensures ImagesInputSchema(Stored(ImagesInputSchema(p).value)).None? <==>
      |RefsOf(p)| == MAX_IMAGES && Distinct(RefsOf(p)) && RefOf(p).Some? && RefOf(p).value !in RefsOf(p)
  {
    SecondValidation(p);
    AllAreClean(p);
    hide NormalizeImageRefs, ParseRef, Dedup, Trimmed, Distinct;
    NormalizeIsDedup(RefsOf(p), RefOf(p));
    assert ImagesInputSchema(p).value == Dedup(AllRefs(RefsOf(p), RefOf(p)));
    hide ImagesInputSchema;
    if RefOf(p).Some? {
      FullLength(RefsOf(p), RefOf(p).value);
    } else {
      DedupLength(RefsOf(p));
    }
  }

  lemma {:induction false} FullLength(front: seq<string>, last: string)
    ensures |Dedup(front + [last])| <= |front| + 1
    ensures |Dedup(front + [last])| == |front| + 1 <==> Distinct(front) && last !in front
  {
    var all := front + [last];
    DedupLength(all);
    if Distinct(front) && last !in front {
      assert Distinct(all);
      DedupIsIdentity(all);
    }
    if Distinct(all) { DistinctParts(front, last); }
  }

  lemma {:induction false} DistinctParts(front: seq<string>, last: string)
    requires Distinct(front + [last])
    ensures Distinct(front) && last !in front
  {
    var all := front + [last];
    assert all[|front|] == last;
    forall i | 0 <= i < |front| ensures front[i] != last {
      assert all[i] == front[i];
    }
    forall i, j | 0 <= i < j < |front| ensures front[i] != front[j] {
      assert all[i] == front[i] && all[j] == front[j];
    }
  }

  /** Removing repetitions never lengthens a list, and keeps its length only when there are none. */
  lemma {:induction false} DedupLength(items: seq<string>)
    ensures |Dedup(items)| <= |items|
    ensures |Dedup(items)| == |items| ==> Distinct(items)
  {
    if items == [] {
    } else {
      var n := |items| - 1;
      DedupLength(items[..n]);
      if |Dedup(items)| == |items| {
        DedupHasSame(items[..n]);
        assert items == items[..n] + [items[n]];
      }
    }
  }

  /** Five different references pass the API and fail in the worker. */
  lemma {:induction false} FiveRefsAreRefusedLater()
    ensures var p := Object(Some(Text("e")), List([Text("a"), Text("b"), Text("c"), Text("d")]));
      && ImagesInputSchema(p) == Some(["a", "b", "c", "d", "e"])
      && ImagesInputSchema(Stored(["a", "b", "c", "d", "e"])).None?
  {
    hide Dedup, KeepFirst, NormalizeImageRefs, Trim, ParseRefs, RefsOf, RefOf, Trimmed, Stored, ParseRef, Distinct;
    var p := Object(Some(Text("e")), List([Text("a"), Text("b"), Text("c"), Text("d")]));
    var all := ["a", "b", "c", "d", "e"];
    LettersAreRead(p);
    NormalizeIsDedup(["a", "b", "c", "d"], Some("e"));
    assert ["a", "b", "c", "d"] + ["e"] == all;
    DedupIsIdentity(all);
    SecondValidation(p);
  }

  lemma {:induction false} LettersAreRead(p: Payload)
    requires p == Object(Some(Text("e")), List([Text("a"), Text("b"), Text("c"), Text("d")]))
    ensures ParseRefs(p.imageRefs.items).Some? && ParseRef(p.imageRef.value).Some?
    ensures RefsOf(p) == ["a", "b", "c", "d"] && RefOf(p) == Some("e")
  {
    hide Trim, ParseRefs;
    var refs := ["a", "b", "c", "d"];
    CleanRefsParse(refs);
    assert Stored(refs).imageRefs.items == p.imageRefs.items;
    TrimIsIdentity("e");
  }
}
