/** The temp input store. */
module TempInputStore {
  // A directory of uploaded inputs with a cap on its total size that is checked before, and separately from, the
  // write. First the steps of concurrent saves, deletes and cleanups, then the store's own code.
  import opened Text

  const MAX_TOTAL_SIZE: nat := 1024 * 1024 * 1024
  const FILE_TTL_MS: nat := 24 * 60 * 60 * 1000

  // ---------------------------------------------------------------- sums over sets of names

  /** The bytes of a set of files; `size` gives the size of the data that belongs to a name. */
  ghost function Sum(names: set<nat>, size: nat -> nat): nat {
    if names == {} then 0
    else
      var x :| x in names;
      size(x) + Sum(names - {x}, size)
  }

  lemma {:induction false} SumTake(names: set<nat>, size: nat -> nat, x: nat)
    requires x in names
    ensures Sum(names, size) == size(x) + Sum(names - {x}, size)
  {
    var y :| y in names && Sum(names, size) == size(y) + Sum(names - {y}, size);
    if y != x {
      SumTake(names - {y}, size, x);
      SumTake(names - {x}, size, y);
      assert names - {y} - {x} == names - {x} - {y};
    }
  }

  lemma {:induction false} SumAdd(names: set<nat>, size: nat -> nat, x: nat)
    requires x !in names
    ensures Sum(names + {x}, size) == Sum(names, size) + size(x)
  {
    SumTake(names + {x}, size, x);
    assert names + {x} - {x} == names;
  }

  lemma {:induction false} SumGrows(small: set<nat>, large: set<nat>, size: nat -> nat)
    requires small <= large
    ensures Sum(small, size) <= Sum(large, size)
    decreases large
  {
    if x :| x in large && x !in small {
      SumTake(large, size, x);
      SumGrows(small, large - {x}, size);
    } else {
      assert small == large;
    }
  }

  lemma {:induction false} SumOfUnion(a: set<nat>, b: set<nat>, size: nat -> nat)
    ensures Sum(a + b, size) <= Sum(a, size) + Sum(b, size)
    decreases b
  {
    if b == {} {
      assert a + b == a;
    } else {
      var x :| x in b;
      SumTake(b, size, x);
      SumOfUnion(a, b - {x}, size);
      var rest := a + (b - {x});
      if x in a {
        assert a + b == rest;
      } else {
        assert a + b == rest + {x};
        SumAdd(rest, size, x);
      }
    }
  }

  lemma {:induction false} SumOfBounded(names: set<nat>, size: nat -> nat, bound: nat)
    requires forall x :: x in names ==> size(x) <= bound
    ensures Sum(names, size) <= |names| * bound
  {
    if names == {} {
    } else {
      var x :| x in names;
      SumTake(names, size, x);
      SumOfBounded(names - {x}, size, bound);
      assert (|names| - 1) * bound + bound == |names| * bound;
    }
  }

  // ---------------------------------------------------------------- steps

  /**
   * The scan of one save: the listed files not yet looked at and the bytes found so far. The stamp
   * numbers the listings; `others` (the saves under way when the directory was listed) and `counted`
   * are history only.
   */
  datatype Scan = Scan(stamp: nat, others: set<nat>, remaining: set<nat>, counted: set<nat>, total: nat)

  datatype Save =
    | Ready
    | Scanning(scan: Scan)
    | Checked(scan: Scan)     // the size was accepted, the file is not written yet
    | Written(scan: Scan)
    | Rejected

  /** A cleanup that has listed the directory; `doomed` is the file found too old and not yet unlinked. */
  datatype Cleaner = Cleaner(now: int, remaining: set<nat>, doomed: Option<nat>)

  /**
   * `files` maps names to mtimes. Every save has a name of its own (a random UUID), so names are drawn
   * from `next` and never used twice.
   */
  datatype State = State(
    files: map<nat, int>, saves: map<nat, Save>, cleaners: map<nat, Cleaner>, clock: int, listings: nat, next: nat)

  datatype Step =
    | Started(id: nat)
    | Listed(id: nat)                 // readdir
    | Stated(id: nat, name: nat)      // stat of one listed file; a missing file is ignored
    | Decided(id: nat)                // the comparison with the cap
    | WriteDone(id: nat)
    | Deleted(name: nat)
    | Ticked(elapsed: nat)
    | CleanupStarted(c: nat)
    | CleanupStated(c: nat, name: nat)
    | CleanupUnlinked(c: nat)

  predicate InFlight(save: Save) { save.Scanning? || save.Checked? }

  function InFlightIds(s: State): set<nat> { set id | id in s.saves && InFlight(s.saves[id]) }

  function CheckedIds(s: State): set<nat> { set id | id in s.saves && s.saves[id].Checked? }

  predicate Enabled(s: State, step: Step) {
    match step
    case Started(id) => id == s.next
    case Listed(id) => id in s.saves && s.saves[id].Ready?
    case Stated(id, name) => id in s.saves && s.saves[id].Scanning? && name in s.saves[id].scan.remaining
    case Decided(id) => id in s.saves && s.saves[id].Scanning? && s.saves[id].scan.remaining == {}
    case WriteDone(id) => id in s.saves && s.saves[id].Checked?
    case Deleted(_) => true
    case Ticked(_) => true
    case CleanupStarted(c) => c !in s.cleaners
    case CleanupStated(c, name) => c in s.cleaners && s.cleaners[c].doomed.None? && name in s.cleaners[c].remaining
    case CleanupUnlinked(c) => c in s.cleaners && s.cleaners[c].doomed.Some?
  }

  function SetSave(s: State, id: nat, save: Save): State { s.(saves := s.saves[id := save]) }

  function Apply(size: nat -> nat, s: State, step: Step): State
    requires Enabled(s, step)
  {
    match step
    case Started(id) => SetSave(s.(next := s.next + 1), id, Ready)
    case Listed(id) =>
      SetSave(s.(listings := s.listings + 1), id,
        Scanning(Scan(s.listings, InFlightIds(s), s.files.Keys, {}, 0)))
    case Stated(id, name) =>
      var scan := s.saves[id].scan;
      var found := name in s.files;
      SetSave(s, id, Scanning(scan.(
        remaining := scan.remaining - {name},
        counted := if found then scan.counted + {name} else scan.counted,
        total := if found then scan.total + size(name) else scan.total)))
    case Decided(id) =>
      var scan := s.saves[id].scan;
      SetSave(s, id, if scan.total + size(id) > MAX_TOTAL_SIZE then Rejected else Checked(scan))
    case WriteDone(id) =>
      SetSave(s.(files := s.files[id := s.clock]), id, Written(s.saves[id].scan))
    case Deleted(name) => s.(files := s.files - {name})
    case Ticked(elapsed) => s.(clock := s.clock + elapsed)
    case CleanupStarted(c) => s.(cleaners := s.cleaners[c := Cleaner(s.clock, s.files.Keys, None)])
    case CleanupStated(c, name) =>
      var cleaner := s.cleaners[c];
      var expired := name in s.files && cleaner.now - s.files[name] > FILE_TTL_MS;
      s.(cleaners := s.cleaners[c :=
        cleaner.(remaining := cleaner.remaining - {name}, doomed := if expired then Some(name) else None)])
    case CleanupUnlinked(c) =>
      var cleaner := s.cleaners[c];
      s.(files := s.files - {cleaner.doomed.value}, cleaners := s.cleaners[c := cleaner.(doomed := None)])
  }

  /** The directory as an earlier process left it. */
  ghost predicate Fresh(s: State) {
    s.saves == map[] && s.cleaners == map[] && forall x :: x in s.files ==> x < s.next
  }

  /** A run over a directory left by an earlier process, with at most `k` saves between listing and write. */
  ghost predicate Run(size: nat -> nat, k: nat, steps: seq<Step>, states: seq<State>) {
    && |states| == |steps| + 1 && Fresh(states[0])
    && (forall i :: 0 <= i < |steps| ==>
          Enabled(states[i], steps[i]) && states[i + 1] == Apply(size, states[i], steps[i]))
    && (forall i :: 0 <= i < |states| ==> |InFlightIds(states[i])| <= k)
  }

  // ---------------------------------------------------------------- invariant

  predicate HasScan(save: Save) { save.Scanning? || save.Checked? || save.Written? }

  /** The number of the listing that a save has made. */
  function Stamp(save: Save): nat { if HasScan(save) then save.scan.stamp else 0 }

  /** `x` was there before the listing of `id`: an older file or a save listed earlier. */
  predicate Before(s: State, x: nat, id: nat)
    requires id in s.saves && HasScan(s.saves[id])
  {
    x != id && (x in s.saves ==> HasScan(s.saves[x]) && Stamp(s.saves[x]) < Stamp(s.saves[id]))
  }

  /** What the scan of `id` misses are at most the saves that were under way when it listed. */
  ghost predicate ScanCovers(s: State, id: nat)
    requires id in s.saves && HasScan(s.saves[id])
  {
    var scan := s.saves[id].scan;
    && (forall x :: x in s.saves && InFlight(s.saves[x]) && Before(s, x, id) ==> x in scan.others)
    && (forall x :: x in s.files && Before(s, x, id) ==> x in scan.others + scan.remaining + scan.counted)
  }

  ghost predicate ScanSums(size: nat -> nat, k: nat, s: State, id: nat)
    requires id in s.saves && HasScan(s.saves[id])
  {
    var scan := s.saves[id].scan;
    && scan.stamp < s.listings
    && scan.others <= s.saves.Keys && |scan.others| < k
    && scan.remaining !! scan.counted
    && scan.total == Sum(scan.counted, size)
    && (!s.saves[id].Scanning? ==> scan.remaining == {} && scan.total + size(id) <= MAX_TOTAL_SIZE)
  }

  ghost predicate AllCover(s: State) { forall id :: id in s.saves && HasScan(s.saves[id]) ==> ScanCovers(s, id) }

  ghost predicate AllSum(size: nat -> nat, k: nat, s: State) {
    forall id :: id in s.saves && HasScan(s.saves[id]) ==> ScanSums(size, k, s, id)
  }

  ghost predicate Inv(size: nat -> nat, k: nat, older: set<nat>, s: State) {
    && AllCover(s) && AllSum(size, k, s) && Names(older, s)
  }

  /** Listings are numbered apart; files belong to finished saves or are older than the run. */
  ghost predicate Names(older: set<nat>, s: State) {
    && (forall a, b :: a in s.saves && b in s.saves && a != b && HasScan(s.saves[a]) && HasScan(s.saves[b]) ==>
          Stamp(s.saves[a]) != Stamp(s.saves[b]))
    && (forall x :: x in s.files ==> x < s.next && if x in s.saves then s.saves[x].Written? else x in older)
    && (forall id :: id in s.saves ==> id < s.next)
  }

  predicate OnSaves(step: Step) {
    step.Started? || step.Listed? || step.Stated? || step.Decided? || step.WriteDone?
  }

  lemma {:induction false} OtherStepKeepsInv(size: nat -> nat, k: nat, older: set<nat>, s: State, step: Step)
    requires Inv(size, k, older, s) && Enabled(s, step) && !OnSaves(step)
    ensures Inv(size, k, older, Apply(size, s, step))
  {
    var t := Apply(size, s, step);
    assert t.saves == s.saves && t.files.Keys <= s.files.Keys && t.listings == s.listings;
    hide Apply;
    forall id | id in t.saves && HasScan(t.saves[id]) ensures ScanCovers(t, id) && ScanSums(size, k, t, id) {
      assert ScanCovers(s, id) && ScanSums(size, k, s, id);
    }
  }

  lemma {:induction false} StartKeepsInv(size: nat -> nat, k: nat, older: set<nat>, s: State, id: nat)
    requires Inv(size, k, older, s) && Enabled(s, Started(id))
    ensures Inv(size, k, older, Apply(size, s, Started(id)))
  {
    var t := Apply(size, s, Started(id));
    forall m | m in t.saves && HasScan(t.saves[m]) ensures ScanCovers(t, m) && ScanSums(size, k, t, m) {
      assert ScanCovers(s, m) && ScanSums(size, k, s, m);
    }
  }

  lemma {:induction false} ListKeepsSums(size: nat -> nat, k: nat, s: State, id: nat)
    requires AllSum(size, k, s) && Enabled(s, Listed(id))
    requires |InFlightIds(Apply(size, s, Listed(id)))| <= k
    ensures AllSum(size, k, Apply(size, s, Listed(id)))
  {
    var t := Apply(size, s, Listed(id));
    assert InFlightIds(t) == InFlightIds(s) + {id};
    forall m | m in t.saves && HasScan(t.saves[m]) ensures ScanSums(size, k, t, m) {
      if m != id { assert ScanSums(size, k, s, m); }
    }
  }

  lemma {:induction false} ListKeepsCover(size: nat -> nat, s: State, id: nat)
    requires AllCover(s) && Enabled(s, Listed(id))
    requires forall m :: m in s.saves && HasScan(s.saves[m]) ==> Stamp(s.saves[m]) < s.listings
    ensures AllCover(Apply(size, s, Listed(id)))
  {
    var t := Apply(size, s, Listed(id));
    forall m | m in t.saves && HasScan(t.saves[m]) ensures ScanCovers(t, m) {
      if m != id { assert ScanCovers(s, m); }
    }
  }

  lemma {:induction false} StampsBelow(size: nat -> nat, k: nat, s: State)
    requires AllSum(size, k, s)
    ensures forall m :: m in s.saves && HasScan(s.saves[m]) ==> Stamp(s.saves[m]) < s.listings
  {
    assert forall m :: m in s.saves && HasScan(s.saves[m]) ==> ScanSums(size, k, s, m);
  }

  lemma {:induction false} ListKeepsInv(size: nat -> nat, k: nat, older: set<nat>, s: State, id: nat)
    requires Inv(size, k, older, s) && Enabled(s, Listed(id))
    requires |InFlightIds(Apply(size, s, Listed(id)))| <= k
    ensures Inv(size, k, older, Apply(size, s, Listed(id)))
  {
    hide AllCover, AllSum;
    ListKeepsSums(size, k, s, id);
    StampsBelow(size, k, s);
    ListKeepsCover(size, s, id);
  }

  /** One save moves on without leaving or entering its listing's past. */
  lemma {:induction false} OneSaveKeepsInv(size: nat -> nat, k: nat, older: set<nat>, s: State, id: nat, save: Save)
    requires Inv(size, k, older, s) && id in s.saves && s.saves[id].Scanning?
    requires !save.Ready? && !save.Written?
    requires HasScan(save) ==>
      && save.scan.stamp == s.saves[id].scan.stamp && save.scan.others == s.saves[id].scan.others
      && ScanSums(size, k, SetSave(s, id, save), id)
      && forall x :: x in s.files && x in s.saves[id].scan.remaining + s.saves[id].scan.counted ==>
           x in save.scan.remaining + save.scan.counted
    ensures Inv(size, k, older, SetSave(s, id, save))
  {
    var t := SetSave(s, id, save);
    OneSaveKeepsCover(s, id, save);
    hide ScanCovers;
    forall m | m in t.saves && HasScan(t.saves[m]) ensures ScanSums(size, k, t, m) {
      if m != id { assert ScanSums(size, k, s, m); }
    }
  }

  lemma {:induction false} OneSaveKeepsCover(s: State, id: nat, save: Save)
    requires AllCover(s) && id in s.saves && s.saves[id].Scanning?
    requires !save.Ready? && !save.Written?
    requires HasScan(save) ==>
      && save.scan.stamp == s.saves[id].scan.stamp && save.scan.others == s.saves[id].scan.others
      && forall x :: x in s.files && x in s.saves[id].scan.remaining + s.saves[id].scan.counted ==>
           x in save.scan.remaining + save.scan.counted
    ensures AllCover(SetSave(s, id, save))
  {
    var t := SetSave(s, id, save);
    forall m | m in t.saves && HasScan(t.saves[m]) ensures ScanCovers(t, m) {
      assert ScanCovers(s, m);
    }
  }

  lemma {:induction false} StatKeepsInv(size: nat -> nat, k: nat, older: set<nat>, s: State, id: nat, name: nat)
    requires Inv(size, k, older, s) && Enabled(s, Stated(id, name))
    ensures Inv(size, k, older, Apply(size, s, Stated(id, name)))
  {
    var t := Apply(size, s, Stated(id, name));
    assert ScanSums(size, k, s, id) by { hide ScanCovers; }
    SumAdd(s.saves[id].scan.counted, size, name);
    assert ScanSums(size, k, t, id) by { hide Inv; }
    hide Inv, ScanSums;
    OneSaveKeepsInv(size, k, older, s, id, t.saves[id]);
  }

  lemma {:induction false} DecideKeepsInv(size: nat -> nat, k: nat, older: set<nat>, s: State, id: nat)
    requires Inv(size, k, older, s) && Enabled(s, Decided(id))
    ensures Inv(size, k, older, Apply(size, s, Decided(id)))
  {
    var t := Apply(size, s, Decided(id));
    assert ScanSums(size, k, s, id) by { hide ScanCovers; }
    hide Inv;
    OneSaveKeepsInv(size, k, older, s, id, t.saves[id]);
  }

  lemma {:induction false} WriteKeepsCover(size: nat -> nat, s: State, id: nat)
    requires AllCover(s) && Enabled(s, WriteDone(id))
    ensures AllCover(Apply(size, s, WriteDone(id)))
  {
    var t := Apply(size, s, WriteDone(id));
    forall m | m in t.saves && HasScan(t.saves[m]) ensures ScanCovers(t, m) {
      assert ScanCovers(s, m);
    }
  }

  lemma {:induction false} WriteKeepsInv(size: nat -> nat, k: nat, older: set<nat>, s: State, id: nat)
    requires Inv(size, k, older, s) && Enabled(s, WriteDone(id))
    ensures Inv(size, k, older, Apply(size, s, WriteDone(id)))
  {
    var t := Apply(size, s, WriteDone(id));
    WriteKeepsCover(size, s, id);
    hide AllCover, ScanCovers;
    forall m | m in t.saves && HasScan(t.saves[m]) ensures ScanSums(size, k, t, m) {
      assert ScanSums(size, k, s, m);
    }
  }

  lemma {:induction false} StepKeepsInv(size: nat -> nat, k: nat, older: set<nat>, s: State, step: Step)
    requires Inv(size, k, older, s) && Enabled(s, step) && |InFlightIds(Apply(size, s, step))| <= k
    ensures Inv(size, k, older, Apply(size, s, step))
  {
    hide Apply, Enabled, Inv, InFlightIds;
    match step {
      case Started(id) => StartKeepsInv(size, k, older, s, id);
      case Listed(id) => ListKeepsInv(size, k, older, s, id);
      case Stated(id, name) => StatKeepsInv(size, k, older, s, id, name);
      case Decided(id) => DecideKeepsInv(size, k, older, s, id);
      case WriteDone(id) => WriteKeepsInv(size, k, older, s, id);
      case _ => OtherStepKeepsInv(size, k, older, s, step);
    }
  }

  lemma {:induction false} RunKeepsInv(size: nat -> nat, k: nat, steps: seq<Step>, states: seq<State>, i: nat)
    requires Run(size, k, steps, states) && i < |states|
    ensures Inv(size, k, states[0].files.Keys, states[i])
  {
    hide Apply, Enabled;
    if i == 0 {
    } else {
      hide Inv;
      RunKeepsInv(size, k, steps, states, i - 1);
      assert states[i] == Apply(size, states[i - 1], steps[i - 1]) && |InFlightIds(states[i])| <= k;
      StepKeepsInv(size, k, states[0].files.Keys, states[i - 1], steps[i - 1]);
    }
  }

  // ---------------------------------------------------------------- capacity

  /** The save of a non-empty set that listed the directory last. */
  lemma {:induction false} LastListed(s: State, ids: set<nat>) returns (last: nat)
    requires ids != {} && forall id :: id in ids ==> id in s.saves && HasScan(s.saves[id])
    ensures last in ids && forall id :: id in ids ==> Stamp(s.saves[id]) <= Stamp(s.saves[last])
  {
    var x :| x in ids;
    if ids == {x} {
      last := x;
    } else {
      last := LastListed(s, ids - {x});
      if Stamp(s.saves[last]) < Stamp(s.saves[x]) { last := x; }
    }
  }

  /** Every byte stored or accepted is the last scan's, or belongs to a save it could not see. */
  lemma {:induction false} CoveredByLast(size: nat -> nat, k: nat, older: set<nat>, s: State, last: nat)
    requires Inv(size, k, older, s)
    requires last in s.saves && (s.saves[last].Checked? || s.saves[last].Written?)
    requires forall id :: id in s.saves && (id in s.files || s.saves[id].Checked?) ==>
      Stamp(s.saves[id]) <= Stamp(s.saves[last])
    ensures s.files.Keys + CheckedIds(s) <= s.saves[last].scan.counted + s.saves[last].scan.others + {last}
  {
    assert ScanCovers(s, last) && ScanSums(size, k, s, last);
    forall x | x in s.files || x in CheckedIds(s)
      ensures x in s.saves[last].scan.counted + s.saves[last].scan.others + {last}
    {
      if x != last { assert Before(s, x, last); }
    }
  }

  lemma {:induction false} OthersAreSmall(size: nat -> nat, k: nat, s: State, id: nat, largest: nat)
    requires AllSum(size, k, s) && k > 0
    requires id in s.saves && (s.saves[id].Checked? || s.saves[id].Written?)
    requires forall x :: x in s.saves ==> size(x) <= largest
    ensures Sum(s.saves[id].scan.others, size) <= (k - 1) * largest
    ensures Sum(s.saves[id].scan.counted, size) + size(id) <= MAX_TOTAL_SIZE
  {
    assert ScanSums(size, k, s, id);
    var others := s.saves[id].scan.others;
    SumOfBounded(others, size, largest);
    Scaled(|others|, k - 1, largest);
  }

  lemma {:induction false} Scaled(a: nat, b: nat, c: nat)
    requires a <= b
    ensures a * c <= b * c
  {
  }

  function Larger(a: nat, b: nat): nat { if a >= b then a else b }

  /**
   * In every state of every run of saves, deletes and cleanups with at most `k` saves under way, each
   * of at most `largest` bytes, what is stored plus what was accepted and not yet written stays within
   * the cap plus (k - 1) * largest, or within what an earlier process left if that was more. With one
   * save at a time the bound is the cap itself.
   */
  lemma {:induction false} Capacity(
      size: nat -> nat, k: nat, largest: nat, steps: seq<Step>, states: seq<State>, i: nat)
    requires Run(size, k, steps, states) && i < |states| && k > 0
    requires forall x :: x in states[i].saves ==> size(x) <= largest
    ensures Sum(states[i].files.Keys, size) + Sum(CheckedIds(states[i]), size)
      <= Larger(MAX_TOTAL_SIZE + (k - 1) * largest, Sum(states[0].files.Keys, size))
  {
    hide Enabled, Apply, Inv, Sum, AllSum, InFlightIds;
    var s := states[i];
    var older := states[0].files.Keys;
    RunKeepsInv(size, k, steps, states, i);
    var all := s.files.Keys + CheckedIds(s);
    StoredNames(size, k, older, s);
    SumOfDisjoint(s.files.Keys, CheckedIds(s), size);
    var saved := set x | x in all && x in s.saves;
    if saved == {} {
      forall x | x in all ensures x in older { assert x !in saved; }
      SumGrows(all, older, size);
    } else {
      var last := LastListed(s, saved);
      CoveredByLast(size, k, older, s, last);
      OthersAreSmall(size, k, s, last, largest);
      CoverSum(all, s.saves[last].scan.counted, s.saves[last].scan.others, last, size);
    }
  }

  lemma {:induction false} StoredNames(size: nat -> nat, k: nat, older: set<nat>, s: State)
    requires Inv(size, k, older, s)
    ensures AllSum(size, k, s)
    ensures forall x :: x in s.files ==> if x in s.saves then s.saves[x].Written? else x in older
  {
    hide AllSum, AllCover;
  }

  lemma {:induction false} SumOfDisjoint(a: set<nat>, b: set<nat>, size: nat -> nat)
    requires a !! b
    ensures Sum(a + b, size) == Sum(a, size) + Sum(b, size)
    decreases b
  {
    if b == {} {
      assert a + b == a;
    } else {
      var x :| x in b;
      SumTake(b, size, x);
      SumOfDisjoint(a, b - {x}, size);
      assert a + b == a + (b - {x}) + {x};
      SumAdd(a + (b - {x}), size, x);
    }
  }

  lemma {:induction false} CoverSum(all: set<nat>, a: set<nat>, b: set<nat>, x: nat, size: nat -> nat)
    requires all <= a + b + {x}
    ensures Sum(all, size) <= Sum(a, size) + Sum(b, size) + size(x)
  {
    SumGrows(all, a + b + {x}, size);
    SumOfUnion(a + b, {x}, size);
    SumOfUnion(a, b, size);
    SumTake({x}, size, x);
    assert {x} - {x} == {};
  }

  // ---------------------------------------------------------------- cleanup

  /** The file a cleanup is about to unlink was too old when it looked, and nobody writes it again. */
  predicate DoomedIsOld(s: State, name: nat, now: int) {
    && name < s.next && now <= s.clock
    && (name in s.saves ==> s.saves[name].Written?)
    && (name in s.files ==> now - s.files[name] > FILE_TTL_MS)
  }

  ghost predicate CleanersInv(s: State) {
    forall c :: c in s.cleaners ==>
      && s.cleaners[c].now <= s.clock
      && (s.cleaners[c].doomed.Some? ==> DoomedIsOld(s, s.cleaners[c].doomed.value, s.cleaners[c].now))
  }

  lemma {:induction false} StepKeepsCleaners(
      size: nat -> nat, k: nat, older: set<nat>, s: State, step: Step)
    requires Inv(size, k, older, s) && CleanersInv(s) && Enabled(s, step)
    ensures CleanersInv(Apply(size, s, step))
  {
    hide ScanCovers, ScanSums;
  }

  lemma {:induction false} RunKeepsCleaners(size: nat -> nat, k: nat, steps: seq<Step>, states: seq<State>, i: nat)
    requires Run(size, k, steps, states) && i < |states|
    ensures CleanersInv(states[i])
  {
    hide Apply, Enabled, Inv;
    if i == 0 {
    } else {
      RunKeepsCleaners(size, k, steps, states, i - 1);
      RunKeepsInv(size, k, steps, states, i - 1);
      StepKeepsCleaners(size, k, states[0].files.Keys, states[i - 1], steps[i - 1]);
    }
  }

  /** In every run a file no older than the TTL survives every step but an explicit delete of that file. */
  lemma {:induction false} FreshFilesSurvive(
      size: nat -> nat, k: nat, steps: seq<Step>, states: seq<State>, i: nat, name: nat)
    requires Run(size, k, steps, states) && i < |steps|
    requires name in states[i].files && states[i].clock - states[i].files[name] <= FILE_TTL_MS
    requires steps[i] != Deleted(name)
    ensures name in states[i + 1].files
  {
    RunKeepsCleaners(size, k, steps, states, i);
  }

  /**
   * A cleanup that looks at a file older than the TTL unlinks it, and touches no other file; a file
   * within the TTL is left alone.
   */
  lemma {:induction false} CleanupUnlinksExpired(size: nat -> nat, s: State, c: nat, name: nat)
    requires Enabled(s, CleanupStated(c, name)) && name in s.files
    ensures
      var looked := Apply(size, s, CleanupStated(c, name));
      && looked.files == s.files
      && (Enabled(looked, CleanupUnlinked(c)) <==> s.cleaners[c].now - s.files[name] > FILE_TTL_MS)
      && (Enabled(looked, CleanupUnlinked(c)) ==>
            var unlinked := Apply(size, looked, CleanupUnlinked(c));
            unlinked.files == s.files - {name} && unlinked.cleaners[c].doomed.None?)
    ensures forall d :: d !in s.cleaners ==>
      var started := Apply(size, s, CleanupStarted(d));
      d in started.cleaners && started.cleaners[d].remaining == s.files.Keys && started.cleaners[d].now == s.clock
  {
  }

  function Elapsed(steps: seq<Step>): nat {
    if steps == [] then 0
    else Elapsed(steps[..|steps| - 1]) + match steps[|steps| - 1] { case Ticked(elapsed) => elapsed case _ => 0 }
  }

  /** Time passes in ticks, and a file carries the time of its write. */
  lemma {:induction false} TimePasses(size: nat -> nat, k: nat, steps: seq<Step>, states: seq<State>, i: nat)
    requires Run(size, k, steps, states) && i < |states|
    ensures states[i].clock == states[0].clock + Elapsed(steps[..i])
    ensures i < |steps| && steps[i].WriteDone? ==>
      states[i + 1].files == states[i].files[steps[i].id := states[i].clock]
  {
    if i == 0 {
    } else {
      TimePasses(size, k, steps, states, i - 1);
      assert steps[..i][..i - 1] == steps[..i - 1];
      ClockStep(size, states[i - 1], steps[i - 1]);
      hide Apply;
    }
    if i < |steps| { WriteStep(size, states[i], steps[i]); }
  }

  lemma {:induction false} ClockStep(size: nat -> nat, s: State, step: Step)
    requires Enabled(s, step)
    ensures Apply(size, s, step).clock == s.clock + match step { case Ticked(elapsed) => elapsed case _ => 0 }
  {
  }

  lemma {:induction false} WriteStep(size: nat -> nat, s: State, step: Step)
    requires Enabled(s, step)
    ensures step.WriteDone? ==> Apply(size, s, step).files == s.files[step.id := s.clock]
  {
  }

  // ---------------------------------------------------------------- the store's code

  type Bytes = seq<bv8>

  datatype File = File(data: Bytes, mtime: int)

  type Directory = map<string, File>

  ghost function TotalSize(dir: Directory): nat {
    if dir == map[] then 0
    else
      var name :| name in dir;
      |dir[name].data| + TotalSize(dir - {name})
  }

  lemma {:induction false} TotalSizeTake(dir: Directory, name: string)
    requires name in dir
    ensures TotalSize(dir) == |dir[name].data| + TotalSize(dir - {name})
  {
    var other :| other in dir && TotalSize(dir) == |dir[other].data| + TotalSize(dir - {other});
    if other != name {
      TotalSizeTake(dir - {other}, name);
      TotalSizeTake(dir - {name}, other);
      assert dir - {other} - {name} == dir - {name} - {other};
    }
  }

  predicate Expired(file: File, now: int) { now - file.mtime > FILE_TTL_MS }

  /** The directory without the files that are older than the TTL. */
  function Unexpired(dir: Directory, now: int): Directory {
    map name | name in dir && !Expired(dir[name], now) :: dir[name]
  }

  /** One process, one operation at a time. */
  class ManagedFileTempInputStore {
    var files: Directory

    constructor (left: Directory)
      ensures files == left
    {
      files := left;
    }

    method GetCurrentSize() returns (totalSize: nat)
      ensures totalSize == TotalSize(files)
      ensures files == map[] ==> totalSize == 0
    {
      totalSize := 0;
      var rest := files.Keys;
      ghost var counted: Directory := map[];
      while rest != {}
        invariant rest <= files.Keys && counted == files - rest
        invariant totalSize == TotalSize(counted)
        decreases rest
      {
        var name :| name in rest;
        totalSize := totalSize + |files[name].data|;
        rest := rest - {name};
        ghost var more := counted[name := files[name]];
        TotalSizeTake(more, name);
        assert more - {name} == counted;
        counted := more;
      }
      assert counted == files;
    }

    /** `filename` is the fresh random name. A refused input leaves the directory as it was. */
    method Save(data: Bytes, filename: string, now: int) returns (ref: Option<string>)
      requires filename !in files
      modifies this
      ensures ref.Some? <==> TotalSize(old(files)) + |data| <= MAX_TOTAL_SIZE
      ensures ref.Some? ==> ref.value == filename && files == old(files)[filename := File(data, now)]
      ensures ref.None? ==> files == old(files)
      ensures TotalSize(old(files)) <= MAX_TOTAL_SIZE ==> TotalSize(files) <= MAX_TOTAL_SIZE
    {
      var currentSize := GetCurrentSize();
      if currentSize + |data| > MAX_TOTAL_SIZE {
        return None;
      }
      files := files[filename := File(data, now)];
      TotalSizeTake(files, filename);
      assert files - {filename} == old(files);
      return Some(filename);
    }

    method Get(ref: string) returns (data: Option<Bytes>)
      ensures data == if ref in files then Some(files[ref].data) else None
    {
      if ref in files {
        return Some(files[ref].data);
      }
      return None;
    }

    method Delete(ref: string)
      modifies this
      ensures files == old(files) - {ref}
    {
      files := files - {ref};
    }

    method Cleanup(now: int)
      modifies this
      ensures files == Unexpired(old(files), now)
      ensures forall name :: name in files <==>
        name in old(files) && now - old(files)[name].mtime <= FILE_TTL_MS
      ensures forall name :: name in files ==> files[name] == old(files)[name]
    {
      var rest := files.Keys;
      while rest != {}
        invariant rest <= files.Keys <= old(files).Keys
        invariant forall name :: name in files ==> files[name] == old(files)[name]
        invariant forall name :: name in old(files) && name !in rest ==>
          (name in files <==> !Expired(old(files)[name], now))
        decreases rest
      {
        var name :| name in rest;
        rest := rest - {name};
        if now - files[name].mtime > FILE_TTL_MS {
          files := files - {name};
        }
      }
    }
  }
}
