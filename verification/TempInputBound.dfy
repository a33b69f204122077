/** The exact bound of the store. */
module TempInputBound {
  // For every number of concurrent saves and every size there is a run that reaches the bound on what the temp input
  // store holds, built step by step from an empty directory.
  import opened Text
  import opened TempInputStore

  function Below(n: nat): (r: set<nat>)
    ensures |r| == n && forall x :: x in r <==> 0 <= x < n
  {
    if n == 0 then {} else Below(n - 1) + {n - 1}
  }

  /** The next filling save takes `each` bytes, or what is left to fill. */
  function Take(left: nat, each: nat): (r: nat)
    ensures r <= left && r <= each
  {
    if left < each then left else each
  }

  function Fills(left: nat, each: nat): nat
    requires each >= 1
    decreases left
  {
    if left == 0 then 0 else 1 + Fills(left - Take(left, each), each)
  }

  /** The number of saves, one after another, that leave room for exactly one of `each` bytes. */
  function FillCount(each: nat): nat
    requires 1 <= each <= MAX_TOTAL_SIZE
  {
    Fills(MAX_TOTAL_SIZE - each, each)
  }

  /** What `n` of them leave to fill. */
  function Left(each: nat, n: nat): nat
    requires 1 <= each <= MAX_TOTAL_SIZE
  {
    if n == 0 then MAX_TOTAL_SIZE - each else Left(each, n - 1) - Take(Left(each, n - 1), each)
  }

  function Sizes(each: nat): nat -> nat
    requires 1 <= each <= MAX_TOTAL_SIZE
  {
    (x: nat) => if x < FillCount(each) then Take(Left(each, x), each) else each
  }

  lemma {:induction false} SizesAreBounded(each: nat, x: nat)
    requires 1 <= each <= MAX_TOTAL_SIZE
    ensures Sizes(each)(x) <= each
  {
    hide FillCount, Left;
  }

  lemma {:induction false} SumBelow(size: nat -> nat, n: nat)
    ensures Sum(Below(n + 1), size) == Sum(Below(n), size) + size(n)
  {
    hide Sum;
    SumAdd(Below(n), size, n);
  }

  lemma {:induction false} FillsLeft(each: nat, n: nat)
    requires 1 <= each <= MAX_TOTAL_SIZE && n <= FillCount(each)
    ensures Fills(Left(each, n), each) == FillCount(each) - n
  {
    if n == 0 {
    } else {
      FillsLeft(each, n - 1);
    }
  }

  lemma {:induction false} OneFill(each: nat, n: nat)
    requires 1 <= each <= MAX_TOTAL_SIZE && n < FillCount(each)
    ensures Sizes(each)(n) == Left(each, n) - Left(each, n + 1)
  {
    hide FillCount;
  }

  lemma {:induction false} NoFill(each: nat)
    requires 1 <= each <= MAX_TOTAL_SIZE
    ensures Below(0) == {} && Sum({}, Sizes(each)) == 0 && Left(each, 0) == MAX_TOTAL_SIZE - each
  {
  }

  lemma {:induction false} FillSum(each: nat, n: nat)
    requires 1 <= each <= MAX_TOTAL_SIZE && n <= FillCount(each)
    ensures Sum(Below(n), Sizes(each)) == MAX_TOTAL_SIZE - each - Left(each, n)
  {
    hide Below, Sum, FillCount, Sizes, Left, Take;
    if n > 0 {
      FillSum(each, n - 1);
      OneFill(each, n - 1);
      SumBelow(Sizes(each), n - 1);
    } else {
      NoFill(each);
    }
  }

  lemma {:induction false} FilledSum(each: nat)
    requires 1 <= each <= MAX_TOTAL_SIZE
    ensures Sum(Below(FillCount(each)), Sizes(each)) == MAX_TOTAL_SIZE - each
  {
    hide FillCount, Sizes, Sum, Below, Left;
    FillsLeft(each, FillCount(each));
    FillSum(each, FillCount(each));
  }

  lemma {:induction false} OneMore(k: nat, each: nat)
    ensures (k + 1) * each == k * each + each
  {
  }

  lemma {:induction false} WaveSum(each: nat, k: nat)
    requires 1 <= each <= MAX_TOTAL_SIZE
    ensures Sum(Below(FillCount(each) + k), Sizes(each)) == MAX_TOTAL_SIZE - each + k * each
  {
    hide Below, Sum, FillCount;
    if k == 0 {
      FilledSum(each);
    } else {
      WaveSum(each, k - 1);
      var n := FillCount(each) + (k - 1);
      assert Sizes(each)(n) == each;
      hide Sizes;
      SumBelow(Sizes(each), n);
      OneMore(k - 1, each);
    }
  }

  /** The files that are written when save `id` lists the directory: of the filling saves only. */
  function Base(each: nat, id: nat): nat
    requires 1 <= each <= MAX_TOTAL_SIZE
  {
    if id <= FillCount(each) then id else FillCount(each)
  }

  /** A save fits what its scan finds: the filling ones by design, the others exactly. */
  lemma {:induction false} BaseFits(each: nat, id: nat)
    requires 1 <= each <= MAX_TOTAL_SIZE
    ensures Sum(Below(Base(each, id)), Sizes(each)) + Sizes(each)(id) <= MAX_TOTAL_SIZE
  {
    hide Below, Sum, FillCount, Left;
    if id < FillCount(each) { FillSum(each, id); } else { FilledSum(each); }
  }

  ghost function ScanOf(each: nat, id: nat): Scan
    requires 1 <= each <= MAX_TOTAL_SIZE
  {
    Scan(id, Below(id) - Below(Base(each, id)), {}, Below(Base(each, id)), Sum(Below(Base(each, id)), Sizes(each)))
  }

  ghost function SaveAt(each: nat, id: nat, c: nat, w: nat): Save
    requires 1 <= each <= MAX_TOTAL_SIZE
  {
    if id < w then Written(ScanOf(each, id))
    else if id < c then Checked(ScanOf(each, id))
    else Scanning(ScanOf(each, id))
  }

  ghost function Saves(each: nat, n: nat, c: nat, w: nat): map<nat, Save>
    requires 1 <= each <= MAX_TOTAL_SIZE
  {
    map id | id in Below(n) :: SaveAt(each, id, c, w)
  }

  /** `n` saves have scanned, the first `c` of them are accepted, the first `w` written. */
  ghost function Wave(each: nat, n: nat, c: nat, w: nat): State
    requires 1 <= each <= MAX_TOTAL_SIZE
  {
    State(map id | id in Below(w) :: 0, Saves(each, n, c, w), map[], 0, n, n)
  }

  lemma {:induction false} WaveInFlight(each: nat, n: nat, c: nat, w: nat)
    requires 1 <= each <= MAX_TOTAL_SIZE && w <= n
    ensures InFlightIds(Wave(each, n, c, w)) == Below(n) - Below(w)
    ensures |Below(n) - Below(w)| == n - w
  {
    hide Below, ScanOf;
    assert Below(n) == Below(w) + (Below(n) - Below(w));
  }

  /** A run from the empty directory that ends in `last`. */
  ghost predicate Reaches(each: nat, k: nat, steps: seq<Step>, states: seq<State>, last: State)
    requires 1 <= each <= MAX_TOTAL_SIZE
  {
    && Run(Sizes(each), k, steps, states) && |states| == |steps| + 1
    && states[0] == Wave(each, 0, 0, 0) && states[|steps|] == last
  }

  lemma {:induction false} Extend(
      each: nat, k: nat, steps: seq<Step>, states: seq<State>, last: State, step: Step, next: State)
    returns (steps': seq<Step>, states': seq<State>)
    requires 1 <= each <= MAX_TOTAL_SIZE && Reaches(each, k, steps, states, last)
    requires Enabled(last, step) && next == Apply(Sizes(each), last, step) && |InFlightIds(next)| <= k
    ensures Reaches(each, k, steps', states', next)
  {
    hide Apply, Enabled, InFlightIds, Fresh, Wave;
    steps', states' := steps + [step], states + [next];
  }

  /** A scan that finds all its files adds up their sizes, one stat after another. */
  lemma {:induction false} ScanAll(
      each: nat, k: nat, steps: seq<Step>, states: seq<State>, s: State, id: nat, scan: Scan)
    returns (steps': seq<Step>, states': seq<State>)
    requires 1 <= each <= MAX_TOTAL_SIZE && Reaches(each, k, steps, states, SetSave(s, id, Scanning(scan)))
    requires scan.remaining <= s.files.Keys && scan.remaining !! scan.counted
    requires scan.total == Sum(scan.counted, Sizes(each))
    requires |InFlightIds(SetSave(s, id, Scanning(scan)))| <= k
    ensures var all := scan.counted + scan.remaining;
      Reaches(each, k, steps', states',
        SetSave(s, id, Scanning(scan.(remaining := {}, counted := all, total := Sum(all, Sizes(each))))))
    decreases scan.remaining
  {
    hide Reaches, Sum, Sizes;
    var before := SetSave(s, id, Scanning(scan));
    if scan.remaining == {} {
      steps', states' := steps, states;
      assert scan.counted + scan.remaining == scan.counted;
    } else {
      var name :| name in scan.remaining;
      var scan' := scan.(remaining := scan.remaining - {name}, counted := scan.counted + {name},
        total := scan.total + Sizes(each)(name));
      var after := SetSave(s, id, Scanning(scan'));
      SumAdd(scan.counted, Sizes(each), name);
      assert after.saves == before.saves[id := Scanning(scan')];
      assert InFlightIds(after) == InFlightIds(before);
      var mid, midStates := Extend(each, k, steps, states, before, Stated(id, name), after);
      assert scan'.counted + scan'.remaining == scan.counted + scan.remaining;
      hide Apply, Enabled, InFlightIds;
      steps', states' := ScanAll(each, k, mid, midStates, s, id, scan');
    }
  }

  /** The state in which save `n` has listed the directory, apart from its own phase. */
  ghost function Listing(each: nat, n: nat, w: nat): State
    requires 1 <= each <= MAX_TOTAL_SIZE
  {
    Wave(each, n, w, w).(next := n + 1, listings := n + 1)
  }

  function FreshScan(n: nat, w: nat): Scan { Scan(n, Below(n) - Below(w), Below(w), {}, 0) }

  lemma {:induction false} NotSavedYet(each: nat, n: nat, w: nat)
    requires 1 <= each <= MAX_TOTAL_SIZE
    ensures n !in Saves(each, n, w, w)
  {
    hide Below, SaveAt;
  }

  /** The next save starts and lists. */
  lemma {:induction false} WaveLists(each: nat, k: nat, steps: seq<Step>, states: seq<State>, n: nat, w: nat)
    returns (steps': seq<Step>, states': seq<State>)
    requires 1 <= each <= MAX_TOTAL_SIZE && w <= n && n + 1 - w <= k
    requires Reaches(each, k, steps, states, Wave(each, n, w, w))
    ensures Reaches(each, k, steps', states', SetSave(Listing(each, n, w), n, Scanning(FreshScan(n, w))))
    ensures |InFlightIds(SetSave(Listing(each, n, w), n, Scanning(FreshScan(n, w))))| <= k
  {
    hide Reaches, Saves, Below, FillCount, Sizes;
    var first := Wave(each, n, w, w);
    var ready := SetSave(first.(next := n + 1), n, Ready);
    var listed := SetSave(Listing(each, n, w), n, Scanning(FreshScan(n, w)));
    WaveInFlight(each, n, w, w);
    NotSavedYet(each, n, w);
    ListedInFlight(first, n, FreshScan(n, w), ready, listed);
    assert first.files.Keys == Below(w);
    assert ready == Apply(Sizes(each), first, Started(n)) && listed == Apply(Sizes(each), ready, Listed(n));
    hide InFlightIds, Apply, Wave, Listing, SetSave;
    steps', states' := Extend(each, k, steps, states, first, Started(n), ready);
    steps', states' := Extend(each, k, steps', states', ready, Listed(n), listed);
  }

  /** The next save starts, lists and scans. */
  lemma {:induction false} WaveScans(each: nat, k: nat, steps: seq<Step>, states: seq<State>, n: nat)
    returns (steps': seq<Step>, states': seq<State>)
    requires 1 <= each <= MAX_TOTAL_SIZE && n + 1 - Base(each, n) <= k
    requires Reaches(each, k, steps, states, Wave(each, n, Base(each, n), Base(each, n)))
    ensures Reaches(each, k, steps', states', Wave(each, n + 1, Base(each, n), Base(each, n)))
  {
    assert Base(each, n) <= n;
    hide Reaches, Sum, Sizes, Saves, Below, FillCount, InFlightIds;
    var w := Base(each, n);
    hide Base;
    WaveScanned(each, n, w);
    hide Wave, Listing, SetSave;
    steps', states' := WaveLists(each, k, steps, states, n, w);
    NoFill(each);
    steps', states' := ScanAll(each, k, steps', states', Listing(each, n, w), n, FreshScan(n, w));
    assert {} + Below(w) == Below(w);
  }

  lemma {:induction false} WaveScanned(each: nat, n: nat, w: nat)
    requires 1 <= each <= MAX_TOTAL_SIZE && w == Base(each, n)
    ensures Listing(each, n, w).files.Keys == Below(w)
    ensures SetSave(Listing(each, n, w), n, Scanning(ScanOf(each, n))) == Wave(each, n + 1, w, w)
  {
    hide Saves, Below, ScanOf, Base, FillCount;
    ScannedSaves(each, n, w);
  }

  lemma {:induction false} ListedInFlight(before: State, n: nat, scan: Scan, ready: State, listed: State)
    requires n !in before.saves && ready.saves == before.saves[n := Ready]
    requires listed.saves == before.saves[n := Scanning(scan)]
    ensures InFlightIds(ready) == InFlightIds(before)
    ensures |InFlightIds(listed)| == |InFlightIds(before)| + 1
  {
    assert InFlightIds(listed) == InFlightIds(before) + {n};
  }

  lemma {:induction false} ScannedSaves(each: nat, n: nat, w: nat)
    requires 1 <= each <= MAX_TOTAL_SIZE && w == Base(each, n)
    ensures Saves(each, n, w, w)[n := Scanning(ScanOf(each, n))] == Saves(each, n + 1, w, w)
  {
    assert Base(each, n) <= n;
    hide Below, ScanOf, Base, FillCount;
  }

  lemma {:induction false} SavesAt(each: nat, n: nat, id: nat, save: Save, c: nat, w: nat, c': nat, w': nat)
    requires 1 <= each <= MAX_TOTAL_SIZE && id < n && save == SaveAt(each, id, c', w')
    requires forall x: nat :: x < n && x != id ==> SaveAt(each, x, c, w) == SaveAt(each, x, c', w')
    ensures Saves(each, n, c, w)[id := save] == Saves(each, n, c', w')
  {
    hide SaveAt, Below;
  }

  lemma {:induction false} DecideStep(each: nat, n: nat, c: nat, w: nat)
    requires 1 <= each <= MAX_TOTAL_SIZE && w <= c < n
    ensures Enabled(Wave(each, n, c, w), Decided(c))
    ensures Apply(Sizes(each), Wave(each, n, c, w), Decided(c)) == Wave(each, n, c + 1, w)
  {
    hide Sum, Sizes, Below, FillCount, Base;
    assert Wave(each, n, c, w).saves[c] == Scanning(ScanOf(each, c));
    BaseFits(each, c);
    var scan := ScanOf(each, c);
    assert scan.remaining == {} && scan.total + Sizes(each)(c) <= MAX_TOTAL_SIZE;
    SavesAt(each, n, c, Checked(scan), c, w, c + 1, w);
    hide Saves, ScanOf, SaveAt;
  }

  lemma {:induction false} WriteStep(each: nat, n: nat, w: nat)
    requires 1 <= each <= MAX_TOTAL_SIZE && w < n
    ensures Enabled(Wave(each, n, n, w), WriteDone(w))
    ensures Apply(Sizes(each), Wave(each, n, n, w), WriteDone(w)) == Wave(each, n, n, w + 1)
  {
    hide Sum, Sizes, Below, FillCount, Base, ScanOf;
    assert Wave(each, n, n, w).saves[w] == Checked(ScanOf(each, w));
    SavesAt(each, n, w, Written(ScanOf(each, w)), n, w, n, w + 1);
    hide Saves, SaveAt;
    assert Wave(each, n, n, w).files[w := 0] == Wave(each, n, n, w + 1).files;
  }

  lemma {:induction false} EmptyRun(each: nat, k: nat)
    requires 1 <= each <= MAX_TOTAL_SIZE
    ensures Reaches(each, k, [], [Wave(each, 0, 0, 0)], Wave(each, 0, 0, 0))
  {
    WaveInFlight(each, 0, 0, 0);
    assert Below(0) == {};
  }

  /** The filling saves, one at a time. */
  lemma {:induction false} FillRun(each: nat, k: nat, n: nat) returns (steps: seq<Step>, states: seq<State>)
    requires 1 <= each <= MAX_TOTAL_SIZE && k > 0 && n <= FillCount(each)
    ensures Reaches(each, k, steps, states, Wave(each, n, n, n))
  {
    hide Reaches, Wave, FillCount, Apply, Enabled, Sizes, InFlightIds, Below;
    if n == 0 {
      EmptyRun(each, k);
      steps, states := [], [Wave(each, 0, 0, 0)];
    } else {
      var m := n - 1;
      steps, states := FillRun(each, k, m);
      steps, states := WaveScans(each, k, steps, states, m);
      DecideStep(each, n, m, m);
      WaveInFlight(each, n, n, m);
      steps, states := Extend(each, k, steps, states, Wave(each, n, m, m), Decided(m), Wave(each, n, n, m));
      WriteStep(each, n, m);
      WaveInFlight(each, n, n, n);
      steps, states := Extend(each, k, steps, states, Wave(each, n, n, m), WriteDone(m), Wave(each, n, n, n));
    }
  }

  /** Then `i` saves list before any of them is accepted. */
  lemma {:induction false} ListRun(each: nat, k: nat, i: nat) returns (steps: seq<Step>, states: seq<State>)
    requires 1 <= each <= MAX_TOTAL_SIZE && k > 0 && i <= k
    ensures var n := FillCount(each); Reaches(each, k, steps, states, Wave(each, n + i, n, n))
  {
    hide Reaches, Wave, FillCount;
    var n := FillCount(each);
    if i == 0 {
      steps, states := FillRun(each, k, n);
    } else {
      steps, states := ListRun(each, k, i - 1);
      steps, states := WaveScans(each, k, steps, states, n + i - 1);
    }
  }

  /** Of `k` saves that have listed, `i` are accepted before any is written. */
  lemma {:induction false} AcceptRun(each: nat, k: nat, i: nat) returns (steps: seq<Step>, states: seq<State>)
    requires 1 <= each <= MAX_TOTAL_SIZE && k > 0 && i <= k
    ensures var n := FillCount(each); Reaches(each, k, steps, states, Wave(each, n + k, n + i, n))
  {
    hide Reaches, Wave, FillCount, Apply, Enabled, Sizes, InFlightIds, Below;
    var n := FillCount(each);
    if i == 0 {
      steps, states := ListRun(each, k, k);
    } else {
      var c := n + i - 1;
      steps, states := AcceptRun(each, k, i - 1);
      DecideStep(each, n + k, c, n);
      WaveInFlight(each, n + k, c + 1, n);
      steps, states :=
        Extend(each, k, steps, states, Wave(each, n + k, c, n), Decided(c), Wave(each, n + k, c + 1, n));
    }
  }

  /** Of `k` accepted saves `i` are written. */
  lemma {:induction false} WriteRun(each: nat, k: nat, i: nat) returns (steps: seq<Step>, states: seq<State>)
    requires 1 <= each <= MAX_TOTAL_SIZE && k > 0 && i <= k
    ensures var n := FillCount(each); Reaches(each, k, steps, states, Wave(each, n + k, n + k, n + i))
  {
    hide Reaches, Wave, FillCount, Apply, Enabled, Sizes, InFlightIds, Below;
    var n := FillCount(each) + k;
    if i == 0 {
      steps, states := AcceptRun(each, k, k);
    } else {
      var w := FillCount(each) + i - 1;
      steps, states := WriteRun(each, k, i - 1);
      WriteStep(each, n, w);
      WaveInFlight(each, n, n, w + 1);
      steps, states := Extend(each, k, steps, states, Wave(each, n, n, w), WriteDone(w), Wave(each, n, n, w + 1));
    }
  }

  /**
   * For every `k` and every size from one byte to the cap, some run from an empty directory with at
   * most `k` saves under way, none larger than that, stores the cap plus (k - 1) times that size: the
   * bound is reached.
   */
  lemma {:induction false} CapacityIsReached(k: nat, each: nat)
    returns (size: nat -> nat, steps: seq<Step>, states: seq<State>)
    requires k > 0 && 1 <= each <= MAX_TOTAL_SIZE
    ensures Run(size, k, steps, states) && |states| == |steps| + 1 && states[0].files == map[]
    ensures forall x :: size(x) <= each
    ensures Sum(states[|steps|].files.Keys, size) == MAX_TOTAL_SIZE + (k - 1) * each
  {
    hide Run, Sum, Below, Saves, FillCount, Sizes;
    size := Sizes(each);
    steps, states := WriteRun(each, k, k);
    var n := FillCount(each) + k;
    assert states[0].files.Keys == Below(0) == {};
    assert states[|steps|].files.Keys == Below(n);
    WaveSum(each, k);
    OneMore(k - 1, each);
    forall x ensures size(x) <= each { SizesAreBounded(each, x); }
  }

  /** Stored and accepted bytes. */
  ghost function Held(size: nat -> nat, s: State): nat { Sum(s.files.Keys, size) + Sum(CheckedIds(s), size) }

  /** A run with at most `k` saves under way over a directory within the cap. */
  ghost predicate RunWithin(size: nat -> nat, k: nat, steps: seq<Step>, states: seq<State>) {
    Run(size, k, steps, states) && Sum(states[0].files.Keys, size) <= MAX_TOTAL_SIZE
  }

  ghost predicate CapHolds(k: nat) {
    forall size: nat -> nat, steps, states, i: nat :: RunWithin(size, k, steps, states) && i < |states| ==>
      Held(size, states[i]) <= MAX_TOTAL_SIZE
  }

  /** The cap holds in all runs exactly when no two saves are under way at once. */
  lemma {:induction false} CapHoldsIffAlone(k: nat)
    ensures CapHolds(k) <==> k <= 1
  {
    if k <= 1 {
      forall size: nat -> nat, steps, states, i: nat | RunWithin(size, k, steps, states) && i < |states|
        ensures Held(size, states[i]) <= MAX_TOTAL_SIZE
      {
        AloneWithinCap(size, k, steps, states, i);
      }
    } else {
      var size, steps, states := CapacityIsReached(k, MAX_TOTAL_SIZE);
      hide Run;
      assert states[0].files.Keys == {};
      assert RunWithin(size, k, steps, states);
      assert Held(size, states[|steps|]) > MAX_TOTAL_SIZE;
    }
  }

  lemma {:induction false} AloneWithinCap(
      size: nat -> nat, k: nat, steps: seq<Step>, states: seq<State>, i: nat)
    requires RunWithin(size, k, steps, states) && k <= 1 && i < |states|
    ensures Held(size, states[i]) <= MAX_TOTAL_SIZE
  {
    hide Sum, Enabled, Apply;
    assert Run(size, 1, steps, states);
    var saves := states[i].saves.Keys;
    var largest := Sum(saves, size);
    forall x | x in saves ensures size(x) <= largest { SumTake(saves, size, x); }
    hide Run;
    Capacity(size, 1, largest, steps, states, i);
  }
}
