/** Idempotent job creation. */
module Idempotency {
  // The lookup of the key, its write and the enqueue are separate steps, so calls with one key may overlap.
  import opened Text

  // ---------------------------------------------------------------- overlapping calls with one key

  /** One call of `enqueueWithIdempotency`; every call brings a job id of its own, which also names it. */
  datatype Call =
    | Missed                  // GET found nothing
    | Recorded                // SET done, not enqueued yet
    | Created                 // answered { created: true } with its own id
    | Existing(id: nat)       // answered { created: false, id }

  /** The value under the key while it is within its TTL, and the calls that have looked it up. */
  datatype State = State(value: Option<nat>, calls: map<nat, Call>)

  datatype Step = Check(c: nat) | Write(c: nat) | Enqueue(c: nat)

  predicate Enabled(s: State, step: Step) {
    match step
    case Check(c) => c !in s.calls
    case Write(c) => c in s.calls && s.calls[c].Missed?
    case Enqueue(c) => c in s.calls && s.calls[c].Recorded?
  }

  function Apply(s: State, step: Step): State
    requires Enabled(s, step)
  {
    match step
    case Check(c) => s.(calls := s.calls[c := match s.value case None => Missed case Some(id) => Existing(id)])
    case Write(c) => State(Some(c), s.calls[c := Recorded])
    case Enqueue(c) => s.(calls := s.calls[c := Created])
  }

  ghost predicate Run(steps: seq<Step>, states: seq<State>) {
    && |states| == |steps| + 1 && states[0] == State(None, map[])
    && forall i :: 0 <= i < |steps| ==> Enabled(states[i], steps[i]) && states[i + 1] == Apply(states[i], steps[i])
  }

  /** Nothing is written in the first `w` steps, and `w` is the first write or the end. */
  predicate FirstWrite(steps: seq<Step>, w: nat) {
    && w <= |steps|
    && (forall i :: 0 <= i < w ==> !steps[i].Write?)
    && (w < |steps| ==> steps[w].Write?)
  }

  predicate Checks(steps: seq<Step>, c: nat, until: nat)
    requires until <= |steps|
  {
    exists i :: 0 <= i < until && steps[i] == Check(c)
  }

  /** The call has found nothing and goes on to create a job, or has. */
  predicate Creates(s: State, c: nat) { c in s.calls && !s.calls[c].Existing? }

  function Min(a: nat, b: nat): nat { if a <= b then a else b }

  lemma {:induction false} ValueFollowsWrite(steps: seq<Step>, states: seq<State>, w: nat, i: nat)
    requires Run(steps, states) && FirstWrite(steps, w) && i < |states|
    ensures states[i].value.Some? <==> w < i
  {
    if i == 0 {
    } else {
      ValueFollowsWrite(steps, states, w, i - 1);
    }
  }

  lemma {:induction false} CreatorsCheckedFirst(steps: seq<Step>, states: seq<State>, w: nat, i: nat, c: nat)
    requires Run(steps, states) && FirstWrite(steps, w) && i < |states|
    ensures Creates(states[i], c) <==> Checks(steps, c, Min(i, w))
  {
    if i == 0 {
    } else {
      var s, step := states[i - 1], steps[i - 1];
      CreatorsCheckedFirst(steps, states, w, i - 1, c);
      ValueFollowsWrite(steps, states, w, i - 1);
      assert states[i] == Apply(s, step);
      if i <= w {
        assert Checks(steps, c, i) <==> Checks(steps, c, i - 1) || step == Check(c);
      }
    }
  }

  function CreatedJobs(s: State): set<nat> { set c | c in s.calls && s.calls[c].Created? }

  /** No call is still between its lookup and its enqueue. */
  ghost predicate Settled(s: State) { forall c :: c in s.calls ==> s.calls[c].Created? || s.calls[c].Existing? }

  /**
   * In every interleaving a job is created only by calls that looked the key up before its first
   * write; once every call is answered the created jobs are exactly those.
   */
  lemma {:induction false} CreatedAreEarlyCheckers(steps: seq<Step>, states: seq<State>, w: nat, i: nat)
    requires Run(steps, states) && FirstWrite(steps, w) && i < |states|
    ensures forall c :: c in CreatedJobs(states[i]) ==> Checks(steps, c, Min(i, w))
    ensures Settled(states[i]) ==> forall c :: c in CreatedJobs(states[i]) <==> Checks(steps, c, Min(i, w))
  {
    forall c ensures Creates(states[i], c) <==> Checks(steps, c, Min(i, w)) {
      CreatorsCheckedFirst(steps, states, w, i, c);
    }
  }

  predicate Writes(steps: seq<Step>, c: nat, until: nat)
    requires until <= |steps|
  {
    exists i :: 0 <= i < until && steps[i] == Write(c)
  }

  lemma {:induction false} ValueWasWritten(steps: seq<Step>, states: seq<State>, i: nat)
    requires Run(steps, states) && i < |states|
    ensures states[i].value.Some? ==> Writes(steps, states[i].value.value, i)
  {
    if i == 0 {
    } else {
      ValueWasWritten(steps, states, i - 1);
      assert states[i] == Apply(states[i - 1], steps[i - 1]);
    }
  }

  predicate LastWrite(steps: seq<Step>, c: nat, w: int, i: nat) {
    0 <= w < i <= |steps| && steps[w] == Write(c) && NoWriteBetween(steps, w, i)
  }

  predicate NoWriteBetween(steps: seq<Step>, w: int, i: nat)
    requires 0 <= w < i <= |steps|
  {
    forall j :: w < j < i ==> !steps[j].Write?
  }

  predicate WrittenLast(steps: seq<Step>, c: nat, i: nat) { exists w :: 0 <= w < i && LastWrite(steps, c, w, i) }

  /** Under the key is always the id that was written last. */
  lemma {:induction false} ValueIsLastWritten(steps: seq<Step>, states: seq<State>, i: nat, c: nat)
    requires Run(steps, states) && i < |states|
    ensures states[i].value == Some(c) <==> WrittenLast(steps, c, i)
  {
    if i == 0 {
    } else {
      var p: nat := i - 1;
      ValueIsLastWritten(steps, states, p, c);
      assert states[i] == Apply(states[p], steps[p]);
      forall w: int ensures LastWrite(steps, c, w, i) <==>
        (LastWrite(steps, c, w, p) && !steps[p].Write?) || (w == p && steps[p] == Write(c))
      {
      }
      if steps[p] == Write(c) { assert LastWrite(steps, c, p, i); }
    }
  }

  /** A call that looks the key up after the first write creates nothing and is answered an id written before. */
  lemma {:induction false} LateCallersAreAnswered(steps: seq<Step>, states: seq<State>, w: nat, i: nat, c: nat)
    requires Run(steps, states) && FirstWrite(steps, w) && w < i < |steps| && steps[i] == Check(c)
    ensures c in states[i + 1].calls && states[i + 1].calls[c].Existing?
    ensures Writes(steps, states[i + 1].calls[c].id, i)
    ensures WrittenLast(steps, states[i + 1].calls[c].id, i)
  {
    ValueFollowsWrite(steps, states, w, i);
    ValueWasWritten(steps, states, i);
    ValueIsLastWritten(steps, states, i, states[i].value.value);
    assert states[i + 1] == Apply(states[i], steps[i]);
  }

  /** Calls do not overlap: a call is answered before the next one looks the key up. */
  ghost predicate OneAtATime(steps: seq<Step>, states: seq<State>)
    requires |states| == |steps| + 1
  {
    forall i, j :: 0 <= i < j < |steps| && steps[i].Check? && steps[j].Check? ==>
      steps[i].c in states[j].calls
      && (states[j].calls[steps[i].c].Created? || states[j].calls[steps[i].c].Existing?)
  }

  lemma {:induction false} CreatedAfterWrite(steps: seq<Step>, states: seq<State>, w: nat, i: nat, c: nat)
    requires Run(steps, states) && FirstWrite(steps, w) && i < |states|
    requires c in states[i].calls && !states[i].calls[c].Missed?
    ensures w < i
  {
    if i == 0 {
    } else {
      ValueFollowsWrite(steps, states, w, i - 1);
      if c in states[i - 1].calls && !states[i - 1].calls[c].Missed? {
        CreatedAfterWrite(steps, states, w, i - 1, c);
      } else {
        assert states[i] == Apply(states[i - 1], steps[i - 1]);
      }
    }
  }

  /** Calls that do not overlap create at most one job under a key. */
  lemma {:induction false} OneJobWithoutOverlap(
      steps: seq<Step>, states: seq<State>, w: nat, i: nat, c: nat, d: nat)
    requires Run(steps, states) && OneAtATime(steps, states) && FirstWrite(steps, w) && i < |states|
    requires c in CreatedJobs(states[i]) && d in CreatedJobs(states[i])
    ensures c == d
  {
    CreatedAreEarlyCheckers(steps, states, w, i);
    var a :| 0 <= a < Min(i, w) && steps[a] == Check(c);
    var b :| 0 <= b < Min(i, w) && steps[b] == Check(d);
    if a < b {
      CreatedAfterWrite(steps, states, w, b, c);
    } else if b < a {
      CreatedAfterWrite(steps, states, w, a, d);
    }
  }

  /**
   * Calls that do not overlap create exactly one job under a key: once all calls are answered, that
   * of the first one.
   */
  lemma {:induction false} OneJobForTheFirst(steps: seq<Step>, states: seq<State>, w: nat, i: nat)
    requires Run(steps, states) && OneAtATime(steps, states) && FirstWrite(steps, w) && i < |states|
    requires Settled(states[i]) && i > 0
    ensures steps[0].Check? && CreatedJobs(states[i]) == {steps[0].c}
  {
    hide Settled, OneAtATime;
    assert Enabled(states[0], steps[0]);
    var first := steps[0].c;
    assert Checks(steps, first, Min(i, w));
    CreatedAreEarlyCheckers(steps, states, w, i);
    forall c | c in CreatedJobs(states[i]) ensures c == first {
      OneJobWithoutOverlap(steps, states, w, i, c, first);
    }
  }

  /** Overlapping calls can all create a job: both lookups may precede the first write. */
  lemma {:induction false} OverlapCreatesTwo() returns (steps: seq<Step>, states: seq<State>)
    ensures Run(steps, states) && CreatedJobs(states[|steps|]) == {0, 1}
  {
    steps := [Check(0), Check(1), Write(0), Write(1), Enqueue(0), Enqueue(1)];
    states := [
      State(None, map[]),
      State(None, map[0 := Missed]),
      State(None, map[0 := Missed, 1 := Missed]),
      State(Some(0), map[0 := Recorded, 1 := Missed]),
      State(Some(1), map[0 := Recorded, 1 := Recorded]),
      State(Some(1), map[0 := Created, 1 := Recorded]),
      State(Some(1), map[0 := Created, 1 := Created])];
    assert map[0 := Created, 1 := Created].Keys == {0, 1};
  }

  // ---------------------------------------------------------------- SET NX

  /** The answers of `trySet` calls in the order in which Redis serves them, and the value they leave. */
  function TrySets<T>(value: Option<T>, callers: seq<T>): (seq<bool>, Option<T>)
    decreases callers
  {
    if callers == [] then ([], value)
    else
      var won := value.None?;
      var rest := TrySets(if won then Some(callers[0]) else value, callers[1..]);
      ([won] + rest.0, rest.1)
  }

  /** In every order exactly one of the callers wins, the first one served, and its id stays. */
  lemma {:induction false} TrySetHasOneWinner<T>(value: Option<T>, callers: seq<T>)
    ensures var r := TrySets(value, callers);
      && |r.0| == |callers|
      && (forall i :: 0 <= i < |callers| ==> (r.0[i] <==> value.None? && i == 0))
      && r.1 == (if value.None? && callers != [] then Some(callers[0]) else value)
    decreases callers
  {
    if callers == [] {
    } else {
      TrySetHasOneWinner(Some(if value.None? then callers[0] else value.value), callers[1..]);
    }
  }

  // ---------------------------------------------------------------- the key

  const IDEMPOTENCY_KEY_PREFIX := "recipe-import:idempotency"

  /** `buildKey` */
  function BuildKey(userId: string, key: string): string { IDEMPOTENCY_KEY_PREFIX + ":" + userId + ":" + key }

  /** The second user id continues the first with ":" and the start of the first key. */
  predicate Extends(user: string, key: string, user': string, key': string) {
    && |user| < |user'| && |key'| < |key|
    && user' == user + ":" + key[..|key| - |key'| - 1]
    && key == key[..|key| - |key'| - 1] + ":" + key'
  }

  lemma {:induction false} BuildKeyParts(user: string, key: string)
    ensures BuildKey(user, key)[..|IDEMPOTENCY_KEY_PREFIX| + 1] == IDEMPOTENCY_KEY_PREFIX + ":"
    ensures BuildKey(user, key)[|IDEMPOTENCY_KEY_PREFIX| + 1..] == user + ":" + key
    ensures BuildKey(user, key) == (IDEMPOTENCY_KEY_PREFIX + ":") + (user + ":" + key)
  {
    assert BuildKey(user, key) == (IDEMPOTENCY_KEY_PREFIX + ":") + (user + ":" + key);
  }

  lemma {:induction false} LongerUser(user: string, key: string, user': string, key': string)
    requires user + ":" + key == user' + ":" + key' && |user| < |user'|
    ensures Extends(user, key, user', key')
  {
    var s := user + ":" + key;
    assert s == user + (":" + key) && s == user' + (":" + key');
    var n := |user'| - |user| - 1;
    assert |key| == n + 1 + |key'|;
    assert s[..|user'|] == user' && s[|user'| + 1..] == key' && s[|user'|] == ':';
    assert s[..|user| + 1] == user + ":" && s[|user| + 1..] == key;
    assert user' == s[..|user| + 1] + s[|user| + 1..|user'|];
    assert s[|user| + 1..|user'|] == key[..n];
    assert key == key[..n] + [key[n]] + key[n + 1..];
    assert key[n] == s[|user'|] && key[n + 1..] == s[|user'| + 1..];
  }

  lemma {:induction false} ExtendsCollides(user: string, key: string, user': string, key': string)
    requires Extends(user, key, user', key')
    ensures user + ":" + key == user' + ":" + key'
  {
    var t := key[..|key| - |key'| - 1];
    assert user + ":" + (t + ":" + key') == user + ":" + t + ":" + key';
  }

  /** Two requests share a Redis key exactly when they are equal or one user id runs into the key with ":". */
  lemma {:induction false} BuildKeyCollides(user: string, key: string, user': string, key': string)
    ensures BuildKey(user, key) == BuildKey(user', key') <==>
      (user == user' && key == key') || Extends(user, key, user', key') || Extends(user', key', user, key)
  {
    BuildKeyParts(user, key);
    BuildKeyParts(user', key');
    if BuildKey(user, key) == BuildKey(user', key') {
      if |user| < |user'| {
        LongerUser(user, key, user', key');
      } else if |user'| < |user| {
        LongerUser(user', key', user, key);
      } else {
        SameLength(user, key, user', key');
      }
    }
    if Extends(user, key, user', key') { ExtendsCollides(user, key, user', key'); }
    if Extends(user', key', user, key) { ExtendsCollides(user', key', user, key); }
  }

  lemma {:induction false} SameLength(user: string, key: string, user': string, key': string)
    requires user + ":" + key == user' + ":" + key' && |user| == |user'|
    ensures user == user' && key == key'
  {
    var s := user + ":" + key;
    assert s[..|user|] == user && s[..|user|] == user';
    assert s[|user| + 1..] == key && s[|user| + 1..] == key';
  }

  /** Users whose ids contain no ':' never share a Redis key. */
  lemma {:induction false} PlainUsersNeverCollide(user: string, key: string, user': string, key': string)
    requires ':' !in user && ':' !in user' && BuildKey(user, key) == BuildKey(user', key')
    ensures user == user' && key == key'
  {
    BuildKeyCollides(user, key, user', key');
    if Extends(user, key, user', key') { ExtendedHasColon(user, key, user', key'); }
    if Extends(user', key', user, key) { ExtendedHasColon(user', key', user, key); }
  }

  lemma {:induction false} ExtendedHasColon(user: string, key: string, user': string, key': string)
    requires Extends(user, key, user', key')
    ensures ':' in user'
  {
    assert user'[|user|] == ':';
  }

  // ---------------------------------------------------------------- calls one after another

  datatype Request = Request(userId: string, key: Option<string>, jobId: string)

  type Redis = map<string, string>

  /** `enqueueWithIdempotency` without interference: the new store, and the job id it answers. */
  function Served(redis: Redis, r: Request): (Redis, string) {
    match r.key
    case None => (redis, r.jobId)
    case Some(key) =>
      var redisKey := BuildKey(r.userId, key);
      if redisKey in redis then (redis, redis[redisKey]) else (redis[redisKey := r.jobId], r.jobId)
  }

  function Store(requests: seq<Request>): Redis {
    if requests == [] then map[]
    else Served(Store(requests[..|requests| - 1]), requests[|requests| - 1]).0
  }

  function Answer(requests: seq<Request>, i: nat): string
    requires i < |requests|
  {
    Served(Store(requests[..i]), requests[i]).1
  }

  /** What is stored under a key is the job id of an earlier request with that key, and it stays. */
  lemma {:induction false} StoreKeeps(requests: seq<Request>, n: nat, i: nat)
    requires i < n <= |requests| && requests[i].key.Some?
    ensures var redisKey := BuildKey(requests[i].userId, requests[i].key.value);
      redisKey in Store(requests[..n]) && Store(requests[..n])[redisKey] == Answer(requests, i)
    decreases n
  {
    hide BuildKey;
    assert requests[..n][..n - 1] == requests[..n - 1];
    if i < n - 1 { StoreKeeps(requests, n - 1, i); }
  }

  lemma {:induction false} StoreHasSource(requests: seq<Request>, n: nat, redisKey: string) returns (i: nat)
    requires n <= |requests| && redisKey in Store(requests[..n])
    ensures i < n && requests[i].key.Some? && BuildKey(requests[i].userId, requests[i].key.value) == redisKey
    ensures Store(requests[..n])[redisKey] == requests[i].jobId
    decreases n
  {
    hide BuildKey;
    assert n > 0 ==> requests[..n][..n - 1] == requests[..n - 1];
    if redisKey in Store(requests[..n - 1]) {
      i := StoreHasSource(requests, n - 1, redisKey);
    } else {
      i := n - 1;
    }
  }

  predicate DistinctJobIds(requests: seq<Request>) {
    forall i, j :: 0 <= i < j < |requests| ==> requests[i].jobId != requests[j].jobId
  }

  /** Served one after another, two keyed requests are answered the same job exactly when they share the Redis key. */
  lemma {:induction false} SameAnswerSameKey(requests: seq<Request>, i: nat, j: nat)
    requires DistinctJobIds(requests) && i < |requests| && j < |requests|
    requires requests[i].key.Some? && requests[j].key.Some?
    ensures Answer(requests, i) == Answer(requests, j) <==>
      BuildKey(requests[i].userId, requests[i].key.value) == BuildKey(requests[j].userId, requests[j].key.value)
  {
    hide BuildKey;
    var n := |requests|;
    StoreKeeps(requests, n, i);
    StoreKeeps(requests, n, j);
    var a := StoreHasSource(requests, n, BuildKey(requests[i].userId, requests[i].key.value));
    var b := StoreHasSource(requests, n, BuildKey(requests[j].userId, requests[j].key.value));
  }

  predicate SameKey(a: Request, b: Request) {
    a.key.Some? && b.key.Some? && BuildKey(a.userId, a.key.value) == BuildKey(b.userId, b.key.value)
  }

  lemma {:induction false} StoredKeyWasSent(requests: seq<Request>, n: nat, r: Request)
    requires n <= |requests| && r.key.Some? && BuildKey(r.userId, r.key.value) in Store(requests[..n])
    ensures exists j :: 0 <= j < n && SameKey(requests[j], r)
  {
    hide BuildKey;
    var j := StoreHasSource(requests, n, BuildKey(r.userId, r.key.value));
    assert SameKey(requests[j], r);
  }

  /**
   * Served one after another, a request without a key is answered its own id, and one with a key that
   * of the first request with the same Redis key.
   */
  lemma {:induction false} AnswerIsThatOfTheFirst(requests: seq<Request>, i: nat, f: nat)
    requires i < |requests|
    ensures requests[i].key.None? ==> Answer(requests, i) == requests[i].jobId
    ensures
      f <= i && SameKey(requests[f], requests[i]) && (forall j :: 0 <= j < f ==> !SameKey(requests[j], requests[i])) ==>
        Answer(requests, i) == requests[f].jobId
  {
    hide BuildKey;
    if f <= i && SameKey(requests[f], requests[i]) && forall j :: 0 <= j < f ==> !SameKey(requests[j], requests[i]) {
      var redisKey := BuildKey(requests[i].userId, requests[i].key.value);
      if redisKey in Store(requests[..f]) { StoredKeyWasSent(requests, f, requests[i]); }
      if f < i { StoreKeeps(requests, i, f); }
    }
  }

  /**
   * User "a" with key "b:c" and user "a:b" with key "c" share a Redis key: the second is answered the
   * first one's job and creates none.
   */
  lemma {:induction false} TwoUsersShareAJob(first: string, second: string)
    ensures BuildKey("a", "b:c") == BuildKey("a:b", "c")
    ensures var stored := Served(map[], Request("a", Some("b:c"), first)).0;
      Served(stored, Request("a:b", Some("c"), second)) == (stored, first)
  {
    assert "b:c"[..1] == "b" && "a:b" == "a" + ":" + "b" && "b:c" == "b" + ":" + "c";
    BuildKeyCollides("a", "b:c", "a:b", "c");
    hide BuildKey;
  }

  // ---------------------------------------------------------------- the managers' code

  function Lookup(redis: Redis, redisKey: string): Option<string> {
    if redisKey in redis then Some(redis[redisKey]) else None
  }

  class IdempotencyManager {
    var redis: Redis

    constructor ()
      ensures redis == map[]
    {
      redis := map[];
    }

    method Check(userId: string, key: string) returns (jobId: Option<string>)
      ensures jobId == if BuildKey(userId, key) in redis then Some(redis[BuildKey(userId, key)]) else None
    {
      var redisKey := BuildKey(userId, key);
      if redisKey in redis {
        return Some(redis[redisKey]);
      }
      return None;
    }

    method Set(userId: string, key: string, jobId: string)
      modifies this
      ensures redis == old(redis)[BuildKey(userId, key) := jobId]
    {
      redis := redis[BuildKey(userId, key) := jobId];
    }

    method TrySet(userId: string, key: string, jobId: string) returns (won: bool)
      modifies this
      ensures won <==> BuildKey(userId, key) !in old(redis)
      ensures redis == if won then old(redis)[BuildKey(userId, key) := jobId] else old(redis)
    {
      var redisKey := BuildKey(userId, key);
      won := redisKey !in redis;
      if won {
        redis := redis[redisKey := jobId];
      }
    }

    /** Redis serves the `trySet` calls for one key one after another. */
    method TrySetAll(userId: string, key: string, jobIds: seq<string>) returns (won: seq<bool>)
      modifies this
      ensures won == TrySets(Lookup(old(redis), BuildKey(userId, key)), jobIds).0
      ensures Lookup(redis, BuildKey(userId, key)) == TrySets(Lookup(old(redis), BuildKey(userId, key)), jobIds).1
      ensures forall k :: k != BuildKey(userId, key) ==> Lookup(redis, k) == Lookup(old(redis), k)
    {
      ghost var redisKey := BuildKey(userId, key);
      ghost var all := TrySets(Lookup(redis, redisKey), jobIds);
      var i := 0;
      won := [];
      while i < |jobIds|
        invariant 0 <= i <= |jobIds|
        invariant all.0 == won + TrySets(Lookup(redis, redisKey), jobIds[i..]).0
        invariant all.1 == TrySets(Lookup(redis, redisKey), jobIds[i..]).1
        invariant forall k :: k != redisKey ==> Lookup(redis, k) == Lookup(old(redis), k)
      {
        var first := TrySet(userId, key, jobIds[i]);
        won := won + [first];
        assert jobIds[i..][1..] == jobIds[i + 1..];
        i := i + 1;
      }
    }

    method CheckAndSet(userId: string, key: string, jobId: string) returns (existing: Option<string>)
      modifies this
      ensures var r := Served(old(redis), Request(userId, Some(key), jobId));
        && redis == r.0
        && existing == if BuildKey(userId, key) in old(redis) then Some(r.1) else None
    {
      existing := Check(userId, key);
      if existing.None? {
        Set(userId, key, jobId);
      }
    }
  }

  class BullMQQueue {
    const idempotencyManager: IdempotencyManager
    var jobs: set<string>

    constructor (manager: IdempotencyManager)
      ensures idempotencyManager == manager && jobs == {}
    {
      idempotencyManager, jobs := manager, {};
    }

    method EnqueueWithIdempotency(r: Request) returns (created: bool, jobId: string)
      modifies this, idempotencyManager
      ensures (idempotencyManager.redis, jobId) == Served(old(idempotencyManager.redis), r)
      ensures created <==>
        r.key.None? || BuildKey(r.userId, r.key.value) !in old(idempotencyManager.redis)
      ensures jobs == if created then old(jobs) + {r.jobId} else old(jobs)
    {
      if r.key.Some? {
        var existing := idempotencyManager.CheckAndSet(r.userId, r.key.value, r.jobId);
        if existing.Some? {
          return false, existing.value;
        }
      }
      jobs := jobs + {r.jobId};
      return true, r.jobId;
    }
  }
}
