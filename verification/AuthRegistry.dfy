/** Choosing an authentication strategy. */
module AuthRegistry {
  // A list kept sorted by descending priority with a stable sort (section 23.1.3.30 of ECMA-262), from which the
  // first supporting strategy is taken.
  import opened Text

  datatype Strategy = Strategy(id: nat, priority: real)

  // ---------------------------------------------------------------- stable sorting

  /** The elements of one priority, in order. */
  function Ranked(s: seq<Strategy>, priority: real): seq<Strategy> {
    if s == [] then []
    else (if s[0].priority == priority then [s[0]] else []) + Ranked(s[1..], priority)
  }

  predicate Descending(s: seq<Strategy>) { forall i, j :: 0 <= i < j < |s| ==> s[i].priority >= s[j].priority }

  /** `r` is `s` in descending order of priority, and elements of equal priority keep their order. */
  ghost predicate IsStableSort(s: seq<Strategy>, r: seq<Strategy>) {
    Descending(r) && forall p :: Ranked(r, p) == Ranked(s, p)
  }

  function Insert(x: Strategy, s: seq<Strategy>): seq<Strategy> {
    if s == [] || s[0].priority <= x.priority then [x] + s else [s[0]] + Insert(x, s[1..])
  }

  /** `[...strategies].sort((a, b) => b.priority - a.priority)` */
  function StableSort(s: seq<Strategy>): seq<Strategy> {
    if s == [] then [] else Insert(s[0], StableSort(s[1..]))
  }

  lemma {:induction false} RankedHas(s: seq<Strategy>, p: real, x: Strategy)
    ensures x in Ranked(s, p) <==> x in s && x.priority == p
  {
    if s == [] {
    } else {
      RankedHas(s[1..], p, x);
    }
  }

  lemma {:induction false} RankedHead(s: seq<Strategy>, p: real)
    ensures s == [] ==> Ranked(s, p) == []
    ensures s != [] ==>
      Ranked(s, p) == if s[0].priority == p then [s[0]] + Ranked(s[1..], p) else Ranked(s[1..], p)
  {
  }

  lemma {:induction false} RankedJoin(s: seq<Strategy>, t: seq<Strategy>, p: real)
    ensures Ranked(s + t, p) == Ranked(s, p) + Ranked(t, p)
  {
    hide Ranked;
    RankedHead(s, p);
    if s == [] {
      assert s + t == t;
    } else {
      RankedJoin(s[1..], t, p);
      RankedHead(s + t, p);
      assert (s + t)[1..] == s[1..] + t;
      if s[0].priority == p {
        assert [s[0]] + (Ranked(s[1..], p) + Ranked(t, p)) == [s[0]] + Ranked(s[1..], p) + Ranked(t, p);
      }
    }
  }

  lemma {:induction false} InsertRanks(x: Strategy, s: seq<Strategy>, p: real)
    requires Descending(s)
    ensures Ranked(Insert(x, s), p) == Ranked([x] + s, p)
  {
    if s != [] && s[0].priority > x.priority {
      InsertRanks(x, s[1..], p);
      RankedHead(Insert(x, s), p);
      RankedHead(s, p);
      RankedHead([x] + s, p);
      RankedHead([x] + s[1..], p);
      assert ([x] + s)[1..] == s && ([x] + s[1..])[1..] == s[1..];
      hide Ranked;
    }
  }

  lemma {:induction false} InsertElements(x: Strategy, s: seq<Strategy>)
    ensures forall y :: y in Insert(x, s) <==> y == x || y in s
  {
    if s != [] && s[0].priority > x.priority { InsertElements(x, s[1..]); }
  }

  lemma {:induction false} InsertDescends(x: Strategy, s: seq<Strategy>)
    requires Descending(s)
    ensures Descending(Insert(x, s))
  {
    if s != [] && s[0].priority > x.priority {
      InsertDescends(x, s[1..]);
      InsertElements(x, s[1..]);
      var rest := Insert(x, s[1..]);
      forall i | 0 <= i < |rest| ensures s[0].priority >= rest[i].priority {
        assert rest[i] in rest;
      }
    }
  }

  lemma {:induction false} StableSortIsStable(s: seq<Strategy>)
    ensures IsStableSort(s, StableSort(s))
  {
    if s == [] {
    } else {
      StableSortIsStable(s[1..]);
      var t := StableSort(s[1..]);
      InsertDescends(s[0], t);
      hide Ranked;
      forall p ensures Ranked(StableSort(s), p) == Ranked(s, p) {
        InsertRanks(s[0], t, p);
        RankedHead([s[0]] + t, p);
        RankedHead(s, p);
        assert ([s[0]] + t)[1..] == t;
      }
    }
  }

  lemma {:induction false} SameElements(s: seq<Strategy>, t: seq<Strategy>)
    requires IsStableSort(s, t)
    ensures forall x :: x in s <==> x in t
  {
    hide Ranked;
    forall x ensures x in s <==> x in t {
      RankedHas(s, x.priority, x);
      RankedHas(t, x.priority, x);
      assert Ranked(s, x.priority) == Ranked(t, x.priority);
    }
  }

  /** Order and stability leave no choice: a list has one stable sort. */
  lemma {:induction false} StableSortIsUnique(s: seq<Strategy>, a: seq<Strategy>, b: seq<Strategy>)
    requires IsStableSort(s, a) && IsStableSort(s, b)
    ensures a == b
    decreases |a|
  {
    hide Ranked;
    SameElements(s, a);
    SameElements(s, b);
    if a != [] {
      assert a[0] in a;
      SameHead(a, b);
      StableSortIsUnique(a[1..], a[1..], b[1..]);
    } else if b != [] {
      HeadIsElement(b);
    }
  }

  lemma {:induction false} HeadIsElement(s: seq<Strategy>)
    requires s != []
    ensures s[0] in s
  {
  }

  lemma {:induction false} SameHead(a: seq<Strategy>, b: seq<Strategy>)
    requires Descending(a) && Descending(b) && a != [] && b != []
    requires forall p :: Ranked(a, p) == Ranked(b, p)
    ensures a[0] == b[0] && IsStableSort(a[1..], b[1..])
  {
    hide Ranked;
    var p, q := a[0].priority, b[0].priority;
    SameElements(a, b);
    assert a[0] in a && b[0] in b;
    assert p == q;
    RankedHead(a, p);
    RankedHead(b, p);
    assert Ranked(a, p)[0] == Ranked(b, p)[0];
    forall r ensures Ranked(b[1..], r) == Ranked(a[1..], r) {
      assert Ranked(a, r) == Ranked(b, r);
      RankedHead(a, r);
      RankedHead(b, r);
      if r == p {
        assert Ranked(a[1..], r) == Ranked(a, r)[1..];
        assert Ranked(b[1..], r) == Ranked(b, r)[1..];
      }
    }
  }

  /** Sorting a sorted list with a new element is sorting the whole insertion sequence. */
  lemma {:induction false} SortAfterPush(s: seq<Strategy>, x: Strategy)
    ensures StableSort(StableSort(s) + [x]) == StableSort(s + [x])
  {
    var t := StableSort(s);
    StableSortIsStable(s);
    StableSortIsStable(t + [x]);
    StableSortIsStable(s + [x]);
    forall p ensures Ranked(StableSort(t + [x]), p) == Ranked(s + [x], p) {
      RankedJoin(t, [x], p);
      RankedJoin(s, [x], p);
    }
    StableSortIsUnique(s + [x], StableSort(t + [x]), StableSort(s + [x]));
  }

  /** `addStrategy` for each of `more` in turn. */
  function AddEach(sorted: seq<Strategy>, more: seq<Strategy>): seq<Strategy>
    decreases more
  {
    if more == [] then sorted else AddEach(StableSort(sorted + [more[0]]), more[1..])
  }

  /** Constructing from some strategies and adding the others one at a time is constructing from all. */
  lemma {:induction false} AddingIsConstructing(s: seq<Strategy>, more: seq<Strategy>)
    ensures AddEach(StableSort(s), more) == StableSort(s + more)
    decreases |more|
  {
    if more == [] {
      assert s + more == s;
    } else {
      SortAfterPush(s, more[0]);
      AddingIsConstructing(s + [more[0]], more[1..]);
      assert s + [more[0]] + more[1..] == s + more;
    }
  }

  // ---------------------------------------------------------------- selection

  /** The strategy at position `i` of the insertion sequence wins: best priority, earliest among equals. */
  predicate IsBest(s: seq<Strategy>, supports: Strategy -> bool, i: int) {
    && 0 <= i < |s| && supports(s[i])
    && forall j :: 0 <= j < |s| && supports(s[j]) ==>
         s[j].priority < s[i].priority || (s[j].priority == s[i].priority && i <= j)
  }

  function FirstSupporting(s: seq<Strategy>, supports: Strategy -> bool): (r: Option<Strategy>)
    ensures r.None? <==> forall x :: x in s ==> !supports(x)
    ensures r.Some? ==> r.value in s && supports(r.value)
  {
    if s == [] then None else if supports(s[0]) then Some(s[0]) else FirstSupporting(s[1..], supports)
  }

  lemma {:induction false} FirstIsHighest(s: seq<Strategy>, supports: Strategy -> bool)
    requires Descending(s) && FirstSupporting(s, supports).Some?
    ensures var x := FirstSupporting(s, supports).value;
      && FirstSupporting(Ranked(s, x.priority), supports) == Some(x)
      && forall y :: y in s && supports(y) ==> y.priority <= x.priority
  {
    var x := FirstSupporting(s, supports).value;
    RankedHead(s, x.priority);
    if !supports(s[0]) {
      FirstIsHighest(s[1..], supports);
    }
    hide Ranked;
  }

  lemma {:induction false} SkipUnsupported(x: Strategy, s: seq<Strategy>, supports: Strategy -> bool)
    requires !supports(x)
    ensures FirstSupporting([x] + s, supports) == FirstSupporting(s, supports)
  {
    assert ([x] + s)[1..] == s;
  }

  /** The first supporting element of a priority is at the first supporting position of that priority. */
  lemma {:induction false} FirstOfRank(s: seq<Strategy>, supports: Strategy -> bool, p: real) returns (i: nat)
    requires FirstSupporting(Ranked(s, p), supports).Some?
    ensures i < |s| && s[i] == FirstSupporting(Ranked(s, p), supports).value
    ensures forall j :: 0 <= j < |s| && supports(s[j]) && s[j].priority == p ==> i <= j
  {
    RankedHead(s, p);
    if s[0].priority == p && supports(s[0]) {
      i := 0;
    } else {
      if s[0].priority == p { SkipUnsupported(s[0], Ranked(s[1..], p), supports); }
      hide Ranked, FirstSupporting;
      var k := FirstOfRank(s[1..], supports, p);
      i := k + 1;
      forall j | 0 <= j < |s| && supports(s[j]) && s[j].priority == p ensures i <= j {
        assert s[1..][j - 1] == s[j];
      }
    }
  }

  /**
   * Whatever the order of insertion, the strategy taken from the sorted list is the supporting one of
   * highest priority, inserted first among equals; there is none exactly when none supports the request.
   */
  lemma {:induction false} SelectionIsBest(s: seq<Strategy>, supports: Strategy -> bool)
    ensures match FirstSupporting(StableSort(s), supports)
      case Some(x) => exists i :: IsBest(s, supports, i) && s[i] == x
      case None => forall i :: !IsBest(s, supports, i)
  {
    var t := StableSort(s);
    StableSortIsStable(s);
    SameElements(s, t);
    match FirstSupporting(t, supports) {
      case Some(x) =>
        FirstIsHighest(t, supports);
        var i := FirstOfRank(s, supports, x.priority);
        assert IsBest(s, supports, i);
      case None =>
    }
  }

  // ---------------------------------------------------------------- the registry's code

  class AuthStrategyRegistry {
    var strategies: seq<Strategy>
    /** The strategies in the order in which they were registered. */
    ghost var registered: seq<Strategy>

    ghost predicate Valid()
      reads this
    {
      IsStableSort(registered, strategies)
    }

    constructor (initial: seq<Strategy>)
      ensures Valid() && registered == initial
    {
      strategies := StableSort(initial);
      registered := initial;
      StableSortIsStable(initial);
    }

    method AddStrategy(strategy: Strategy)
      requires Valid()
      modifies this
      ensures Valid() && registered == old(registered) + [strategy]
    {
      StableSortIsStable(registered);
      StableSortIsUnique(registered, strategies, StableSort(registered));
      SortAfterPush(registered, strategy);
      strategies := strategies + [strategy];
      strategies := StableSort(strategies);
      registered := registered + [strategy];
      StableSortIsStable(registered);
    }

    /** `supports` tells which strategies support the request. */
    method Authenticate(supports: Strategy -> bool) returns (chosen: Option<Strategy>)
      requires Valid()
      ensures chosen.Some? ==> exists i :: IsBest(registered, supports, i) && registered[i] == chosen.value
      ensures chosen.None? ==> forall x :: x in registered ==> !supports(x)
    {
      chosen := None;
      var i := 0;
      while i < |strategies|
        invariant 0 <= i <= |strategies|
        invariant FirstSupporting(strategies, supports) == FirstSupporting(strategies[i..], supports)
      {
        if supports(strategies[i]) {
          chosen := Some(strategies[i]);
          break;
        }
        i := i + 1;
      }
      assert chosen == FirstSupporting(strategies, supports);
      StableSortIsStable(registered);
      StableSortIsUnique(registered, strategies, StableSort(registered));
      SameElements(registered, strategies);
      SelectionIsBest(registered, supports);
    }

    method GetStrategies() returns (copy: seq<Strategy>)
      requires Valid()
      ensures IsStableSort(registered, copy)
    {
      return strategies;
    }
  }
}
