/** Live updates of jobs. */
module Subscriptions {
  // Every WebSocket connection maps jobs to send closures, the bridge maps jobs to the closures that want their
  // events. The two sides are kept in agreement by the message handlers.
  import opened Text

  /** A send closure: the connection and the job it captured, and its identity as a function object. */
  datatype Send = Send(conn: nat, job: string, serial: nat)

  datatype Sub = Sub(userId: string, send: Send)

  /** The bridge's index; the sets are kept in insertion order, which is the order of iteration. */
  type Bridge = map<string, seq<Sub>>

  datatype Connection = Connection(
    userId: Option<string>,
    subs: map<string, Send>,
    open: bool,               // the socket's readyState is OPEN
    closed: bool,             // the close event has been emitted: no message follows
    pendingAuths: nat)        // auth messages whose strategy has not answered yet

  datatype Server = Server(bridge: Bridge, conns: map<nat, Connection>, registry: set<nat>, next: nat)

  // ---------------------------------------------------------------- the bridge's index

  predicate Listed(entries: seq<Sub>, send: Send) { exists i :: 0 <= i < |entries| && entries[i].send == send }

  function Entries(b: Bridge, job: string): seq<Sub> { if job in b then b[job] else [] }

  /** `addSubscription` */
  function Add(b: Bridge, job: string, userId: string, send: Send): Bridge {
    b[job := Entries(b, job) + [Sub(userId, send)]]
  }

  predicate Keeps(sub: Sub, userId: string, send: Option<Send>) {
    match send
    case Some(value) => sub.send != value
    case None => sub.userId != userId
  }

  function Kept(entries: seq<Sub>, userId: string, send: Option<Send>): (r: seq<Sub>)
    ensures forall sub :: sub in r <==> sub in entries && Keeps(sub, userId, send)
  {
    if entries == [] then []
    else (if Keeps(entries[0], userId, send) then [entries[0]] else []) + Kept(entries[1..], userId, send)
  }

  /** `removeSubscription`; a job whose last subscription goes is forgotten. */
  function Remove(b: Bridge, job: string, userId: string, send: Option<Send>): Bridge {
    if job !in b then b
    else
      var next := Kept(b[job], userId, send);
      if next == [] then b - {job} else b[job := next]
  }

  /** What `cleanupConnection` leaves of the index: every mapped closure is gone, nothing else changes. */
  function RemoveSends(b: Bridge, userId: string, subs: map<string, Send>): Bridge {
    map j | j in b && (j in subs ==> Kept(b[j], userId, Some(subs[j])) != []) ::
      if j in subs then Kept(b[j], userId, Some(subs[j])) else b[j]
  }

  lemma {:induction false} RemoveSendsStep(b: Bridge, userId: string, subs: map<string, Send>, job: string, send: Send)
    requires job !in subs
    ensures Remove(RemoveSends(b, userId, subs), job, userId, Some(send)) == RemoveSends(b, userId, subs[job := send])
  {
  }

  lemma {:induction false} RemovedAreGone(b: Bridge, userId: string, subs: map<string, Send>)
    ensures forall j :: j in subs ==> !Listed(Entries(RemoveSends(b, userId, subs), j), subs[j])
  {
    forall j | j in subs ensures !Listed(Entries(RemoveSends(b, userId, subs), j), subs[j]) {
      var left := Entries(RemoveSends(b, userId, subs), j);
      assert forall i :: 0 <= i < |left| ==> left[i] in left;
    }
  }

  predicate DistinctSends(entries: seq<Sub>) {
    forall i, j :: 0 <= i < j < |entries| ==> entries[i].send != entries[j].send
  }

  lemma {:induction false} KeptIsDistinct(entries: seq<Sub>, userId: string, send: Option<Send>)
    requires DistinctSends(entries)
    ensures DistinctSends(Kept(entries, userId, send))
  {
    if entries == [] {
    } else {
      KeptIsDistinct(entries[1..], userId, send);
      var rest := Kept(entries[1..], userId, send);
      forall i | 0 <= i < |rest| ensures rest[i].send != entries[0].send {
        assert rest[i] in entries[1..];
      }
    }
  }

  // ---------------------------------------------------------------- one connection's handlers

  /** The subscribe message: the first one for a job creates a closure and lists it. */
  function Subscribe(k: Connection, b: Bridge, c: nat, job: string, serial: nat): (Connection, Bridge)
    requires k.userId.Some?
  {
    if job in k.subs then (k, b)
    else
      var send := Send(c, job, serial);
      (k.(subs := k.subs[job := send]), Add(b, job, k.userId.value, send))
  }

  /** The unsubscribe message. */
  function Unsubscribe(k: Connection, b: Bridge, job: string): (Connection, Bridge)
    requires k.userId.Some?
  {
    if job in k.subs then
      (k.(subs := k.subs - {job}), Remove(b, job, k.userId.value, Some(k.subs[job])))
    else (k, b)
  }

  /** `cleanupConnection` */
  function Cleanup(k: Connection, b: Bridge): (Connection, Bridge) {
    (k.(subs := map[]), if k.userId.Some? then RemoveSends(b, k.userId.value, k.subs) else b)
  }

  // ---------------------------------------------------------------- the server

  datatype Step =
    | Connected(c: nat)
    | AuthReceived(c: nat)                        // the message is received, the strategy is asked
    | AuthAccepted(c: nat, userId: string)        // its answer arrives, possibly after other messages
    | AuthRefused(c: nat)                         // the socket is closed from this side
    | SubscribeReceived(c: nat, job: string)
    | UnsubscribeReceived(c: nat, job: string)
    | PeerClosing(c: nat)                         // readyState leaves OPEN before the close event
    | Errored(c: nat)                             // the error event; messages may still follow
    | Closed(c: nat)                              // the close event

  predicate Enabled(s: Server, step: Step) {
    match step
    case Connected(c) => c !in s.conns
    case AuthReceived(c) => c in s.conns && !s.conns[c].closed && s.conns[c].userId.None?
    case AuthAccepted(c, _) => c in s.conns && s.conns[c].pendingAuths > 0
    case AuthRefused(c) => c in s.conns && s.conns[c].pendingAuths > 0
    case SubscribeReceived(c, _) => c in s.conns && !s.conns[c].closed && s.conns[c].userId.Some?
    case UnsubscribeReceived(c, _) => c in s.conns && !s.conns[c].closed && s.conns[c].userId.Some?
    case PeerClosing(c) => c in s.conns
    case Errored(c) => c in s.conns
    case Closed(c) => c in s.conns
  }

  function Put(s: Server, c: nat, r: (Connection, Bridge)): Server { s.(conns := s.conns[c := r.0], bridge := r.1) }

  function Apply(s: Server, step: Step): Server
    requires Enabled(s, step)
  {
    match step
    case Connected(c) =>
      s.(conns := s.conns[c := Connection(None, map[], true, false, 0)], registry := s.registry + {c})
    case AuthReceived(c) =>
      var k := s.conns[c];
      Put(s, c, (k.(pendingAuths := k.pendingAuths + 1), s.bridge))
    case AuthAccepted(c, userId) =>
      var k := s.conns[c];
      Put(s, c, (k.(pendingAuths := k.pendingAuths - 1, userId := Some(userId)), s.bridge))
    case AuthRefused(c) =>
      var k := s.conns[c];
      Put(s, c, (k.(pendingAuths := k.pendingAuths - 1, open := false), s.bridge))
    case SubscribeReceived(c, job) =>
      Put(s, c, Subscribe(s.conns[c], s.bridge, c, job, s.next)).(next := s.next + 1)
    case UnsubscribeReceived(c, job) => Put(s, c, Unsubscribe(s.conns[c], s.bridge, job))
    case PeerClosing(c) => Put(s, c, (s.conns[c].(open := false), s.bridge))
    case Errored(c) => Put(s, c, Cleanup(s.conns[c], s.bridge)).(registry := s.registry - {c})
    case Closed(c) =>
      var r := Cleanup(s.conns[c], s.bridge);
      Put(s, c, (r.0.(open := false, closed := true), r.1)).(registry := s.registry - {c})
  }

  const Initial := Server(map[], map[], {}, 0)

  ghost predicate Run(steps: seq<Step>, states: seq<Server>) {
    && |states| == |steps| + 1 && states[0] == Initial
    && forall i :: 0 <= i < |steps| ==> Enabled(states[i], steps[i]) && states[i + 1] == Apply(states[i], steps[i])
  }

  // ---------------------------------------------------------------- agreement of the two sides

  /** Connection `c` is authenticated and maps the job to this closure. */
  predicate Owns(s: Server, c: nat, job: string, send: Send) {
    c in s.conns && s.conns[c].userId.Some? && job in s.conns[c].subs && s.conns[c].subs[job] == send
  }

  ghost predicate BridgeBacked(s: Server) {
    forall j :: j in s.bridge ==>
      && s.bridge[j] != [] && DistinctSends(s.bridge[j])
      && forall sub :: sub in s.bridge[j] ==> Owns(s, sub.send.conn, j, sub.send)
  }

  ghost predicate MapsListed(s: Server) {
    forall c, j :: c in s.conns && j in s.conns[c].subs ==> MapListed(s, c, j)
  }

  predicate MapListed(s: Server, c: nat, j: string)
    requires c in s.conns && j in s.conns[c].subs
  {
    var send := s.conns[c].subs[j];
    && s.conns[c].userId.Some? && !s.conns[c].closed
    && send.conn == c && send.job == j && send.serial < s.next
    && j in s.bridge && Listed(s.bridge[j], send)
  }

  ghost predicate Inv(s: Server) { BridgeBacked(s) && MapsListed(s) }

  lemma {:induction false} NotYetListed(s: Server, c: nat, job: string)
    requires Inv(s) && c in s.conns && job !in s.conns[c].subs
    ensures forall i :: 0 <= i < |Entries(s.bridge, job)| ==> Entries(s.bridge, job)[i].send != Send(c, job, s.next)
  {
    forall i | 0 <= i < |Entries(s.bridge, job)| ensures Entries(s.bridge, job)[i].send != Send(c, job, s.next) {
      assert s.bridge[job][i] in s.bridge[job];
    }
  }

  /** A first subscription, on both sides at once. */
  ghost predicate Subscription(s: Server, c: nat, job: string, t: Server) {
    && c in s.conns && !s.conns[c].closed && s.conns[c].userId.Some? && job !in s.conns[c].subs
    && var send := Send(c, job, s.next);
       && t.conns == s.conns[c := s.conns[c].(subs := s.conns[c].subs[job := send])]
       && t.bridge == s.bridge[job := Entries(s.bridge, job) + [Sub(s.conns[c].userId.value, send)]]
       && t.next == s.next + 1
  }

  lemma {:induction false} SubscriptionKeepsBacked(s: Server, c: nat, job: string, t: Server)
    requires Inv(s) && Subscription(s, c, job, t)
    ensures BridgeBacked(t)
  {
    NotYetListed(s, c, job);
    hide MapsListed;
  }

  lemma {:induction false} SubscriptionKeepsListed(s: Server, c: nat, job: string, t: Server)
    requires Inv(s) && Subscription(s, c, job, t)
    ensures MapsListed(t)
  {
    hide BridgeBacked;
    var listed := Entries(s.bridge, job);
    assert Listed(t.bridge[job], Send(c, job, s.next)) by {
      assert t.bridge[job][|listed|].send == Send(c, job, s.next);
    }
    forall d, j | d in t.conns && j in t.conns[d].subs ensures MapListed(t, d, j) {
      if d != c || j != job {
        assert MapListed(s, d, j);
        var i :| 0 <= i < |s.bridge[j]| && s.bridge[j][i].send == s.conns[d].subs[j];
        assert t.bridge[j][i].send == s.conns[d].subs[j];
      }
    }
  }

  lemma {:induction false} SubscribeKeepsInv(s: Server, c: nat, job: string)
    requires Inv(s) && Enabled(s, SubscribeReceived(c, job))
    ensures Inv(Apply(s, SubscribeReceived(c, job)))
  {
    var t := Apply(s, SubscribeReceived(c, job));
    if job in s.conns[c].subs {
      assert t == s.(next := t.next);
    } else {
      SubscriptionKeepsBacked(s, c, job, t);
      SubscriptionKeepsListed(s, c, job, t);
    }
  }

  /** Removing one closure from the entries of a job. */
  lemma {:induction false} KeptLists(entries: seq<Sub>, userId: string, gone: Send, send: Send)
    requires Listed(entries, send) && send != gone
    ensures Listed(Kept(entries, userId, Some(gone)), send)
  {
    var i :| 0 <= i < |entries| && entries[i].send == send;
    assert entries[i] in Kept(entries, userId, Some(gone));
  }

  /** Removing the closures of some of a connection's jobs, on both sides at once. */
  ghost predicate Removal(s: Server, c: nat, gone: map<string, Send>, k: Connection, t: Server) {
    && c in s.conns && s.conns[c].userId.Some?
    && (forall j :: j in gone ==> j in s.conns[c].subs && s.conns[c].subs[j] == gone[j])
    && k.userId == s.conns[c].userId && k.subs == s.conns[c].subs - gone.Keys
    && (k.closed ==> k.subs == map[])
    && t.conns == s.conns[c := k] && t.next == s.next
    && t.bridge == RemoveSends(s.bridge, s.conns[c].userId.value, gone)
  }

  lemma {:induction false} RemovalKeepsBacked(s: Server, c: nat, gone: map<string, Send>, k: Connection, t: Server)
    requires Inv(s) && Removal(s, c, gone, k, t)
    ensures BridgeBacked(t)
  {
    hide Kept, MapListed;
    var u := s.conns[c].userId.value;
    forall j | j in t.bridge
      ensures t.bridge[j] != [] && DistinctSends(t.bridge[j])
      ensures forall sub :: sub in t.bridge[j] ==> Owns(t, sub.send.conn, j, sub.send)
    {
      if j in gone { KeptIsDistinct(s.bridge[j], u, Some(gone[j])); }
    }
  }

  lemma {:induction false} RemovalKeepsListed(s: Server, c: nat, gone: map<string, Send>, k: Connection, t: Server)
    requires Inv(s) && Removal(s, c, gone, k, t)
    ensures MapsListed(t)
  {
    hide Kept, BridgeBacked;
    var u := s.conns[c].userId.value;
    forall d, j | d in t.conns && j in t.conns[d].subs ensures MapListed(t, d, j) {
      assert MapListed(s, d, j);
      if j in gone {
        assert MapListed(s, c, j);
        KeptLists(s.bridge[j], u, gone[j], s.conns[d].subs[j]);
      }
    }
  }

  lemma {:induction false} RemovalKeepsInv(s: Server, c: nat, gone: map<string, Send>, k: Connection, t: Server)
    requires Inv(s) && Removal(s, c, gone, k, t)
    ensures Inv(t)
  {
    RemovalKeepsBacked(s, c, gone, k, t);
    RemovalKeepsListed(s, c, gone, k, t);
  }

  lemma {:induction false} RemoveIsRemoveSends(b: Bridge, job: string, userId: string, send: Send)
    ensures Remove(b, job, userId, Some(send)) == RemoveSends(b, userId, map[job := send])
  {
    RemoveSendsStep(b, userId, map[], job, send);
    assert RemoveSends(b, userId, map[]) == b;
    assert (map[])[job := send] == map[job := send];
  }

  lemma {:induction false} NothingToRemove(b: Bridge, userId: string)
    ensures RemoveSends(b, userId, map[]) == b
  {
  }

  lemma {:induction false} UnsubscribeKeepsInv(s: Server, c: nat, job: string)
    requires Inv(s) && Enabled(s, UnsubscribeReceived(c, job))
    ensures Inv(Apply(s, UnsubscribeReceived(c, job)))
  {
    var t := Apply(s, UnsubscribeReceived(c, job));
    if job in s.conns[c].subs {
      hide Inv, Remove, RemoveSends;
      var gone := map[job := s.conns[c].subs[job]];
      RemoveIsRemoveSends(s.bridge, job, s.conns[c].userId.value, gone[job]);
      assert gone.Keys == {job};
      RemovalKeepsInv(s, c, gone, t.conns[c], t);
    } else {
      assert t == s;
    }
  }

  lemma {:induction false} NoOwnerNoSubs(s: Server, c: nat)
    requires Inv(s) && c in s.conns && (s.conns[c].userId.None? || s.conns[c].closed)
    ensures s.conns[c].subs == map[]
  {
    assert forall j :: j in s.conns[c].subs ==> MapListed(s, c, j);
    assert s.conns[c].subs.Keys == {};
  }

  lemma {:induction false} CleanupKeepsInv(s: Server, c: nat, t: Server, k: Connection)
    requires Inv(s) && c in s.conns
    requires k.subs == map[] && k.userId == s.conns[c].userId
    requires t.conns == s.conns[c := k] && t.next == s.next
    requires t.bridge == Cleanup(s.conns[c], s.bridge).1
    ensures Inv(t)
  {
    var subs := s.conns[c].subs;
    if s.conns[c].userId.Some? {
      assert subs - subs.Keys == map[];
      hide Inv, RemoveSends;
      RemovalKeepsInv(s, c, subs, k, t);
    } else {
      NoOwnerNoSubs(s, c);
      SameMapsKeepInv(s, c, t);
    }
  }

  /** A connection whose map does not change, and is not taken back behind its login, changes nothing. */
  lemma {:induction false} SameMapsKeepInv(s: Server, c: nat, t: Server)
    requires Inv(s) && c in t.conns && t.conns == s.conns[c := t.conns[c]]
    requires t.bridge == s.bridge && t.next == s.next
    requires c in s.conns ==>
      && t.conns[c].subs == s.conns[c].subs
      && (s.conns[c].userId.Some? ==> t.conns[c].userId.Some?)
      && (t.conns[c].closed ==> s.conns[c].closed || s.conns[c].subs == map[])
    requires c !in s.conns ==> t.conns[c].subs == map[]
    ensures Inv(t)
  {
    forall d, j | d in t.conns && j in t.conns[d].subs ensures MapListed(t, d, j) {
      assert MapListed(s, d, j);
    }
  }

  lemma {:induction false} StepKeepsInv(s: Server, step: Step)
    requires Inv(s) && Enabled(s, step)
    ensures Inv(Apply(s, step))
  {
    hide Inv, Subscribe, Unsubscribe, RemoveSends;
    var t := Apply(s, step);
    match step {
      case SubscribeReceived(c, job) => SubscribeKeepsInv(s, c, job);
      case UnsubscribeReceived(c, job) => UnsubscribeKeepsInv(s, c, job);
      case Errored(c) => CleanupKeepsInv(s, c, t, t.conns[c]);
      case Closed(c) => CleanupKeepsInv(s, c, t, t.conns[c]);
      case Connected(c) => SameMapsKeepInv(s, c, t);
      case AuthReceived(c) => SameMapsKeepInv(s, c, t);
      case AuthAccepted(c, _) => SameMapsKeepInv(s, c, t);
      case AuthRefused(c) => SameMapsKeepInv(s, c, t);
      case PeerClosing(c) => SameMapsKeepInv(s, c, t);
    }
  }

  lemma {:induction false} RunKeepsInv(steps: seq<Step>, states: seq<Server>, i: nat)
    requires Run(steps, states) && i < |states|
    ensures Inv(states[i])
  {
    hide Apply, Enabled;
    if i > 0 {
      RunKeepsInv(steps, states, i - 1);
      StepKeepsInv(states[i - 1], steps[i - 1]);
    } else {
      assert Inv(Initial);
    }
  }

  /**
   * In every state of every run the bridge lists a closure for a job exactly when an authenticated
   * connection maps the job to it; that connection is the only one, the closure is listed once, and
   * no empty set is stored.
   */
  lemma {:induction false} SidesAgree(steps: seq<Step>, states: seq<Server>, i: nat, job: string, send: Send)
    requires Run(steps, states) && i < |states|
    ensures Listed(Entries(states[i].bridge, job), send) <==> exists c :: Owns(states[i], c, job, send)
    ensures forall c, d :: Owns(states[i], c, job, send) && Owns(states[i], d, job, send) ==> c == d
    ensures DistinctSends(Entries(states[i].bridge, job))
    ensures job in states[i].bridge ==> states[i].bridge[job] != []
  {
    RunKeepsInv(steps, states, i);
    var s := states[i];
    if Listed(Entries(s.bridge, job), send) {
      var k :| 0 <= k < |s.bridge[job]| && s.bridge[job][k].send == send;
      assert s.bridge[job][k] in s.bridge[job];
      assert Owns(s, send.conn, job, send);
    }
    forall c | Owns(s, c, job, send) ensures c == send.conn && Listed(Entries(s.bridge, job), send) {
      assert MapListed(s, c, job);
    }
  }

  // ---------------------------------------------------------------- what the messages do

  /** Step `i` starts something, and no step between it and state `j` ends it. */
  ghost predicate Since(starts: Step -> bool, ends: Step -> bool, steps: seq<Step>, i: int, j: nat) {
    0 <= i < j <= |steps| && starts(steps[i]) && forall k :: i < k < j ==> !ends(steps[k])
  }

  /** What is turned on and off by steps is on exactly when it was turned on and not off since. */
  lemma {:induction false} OnExactlySince(
      on: seq<bool>, starts: Step -> bool, ends: Step -> bool, steps: seq<Step>, j: nat)
    requires |on| == |steps| + 1 && j < |on| && !on[0]
    requires forall k :: 0 <= k < |steps| ==> (on[k + 1] <==> starts(steps[k]) || (on[k] && !ends(steps[k])))
    ensures on[j] <==> exists i :: Since(starts, ends, steps, i, j)
  {
    if j == 0 {
    } else {
      var p: nat := j - 1;
      OnExactlySince(on, starts, ends, steps, p);
      assert on[j] == on[p + 1];
      forall i
        ensures Since(starts, ends, steps, i, j) <==>
          (Since(starts, ends, steps, i, p) && !ends(steps[p])) || (i == p && starts(steps[p]))
      {
      }
      if starts(steps[p]) { assert Since(starts, ends, steps, p, j); }
    }
  }

  /** Connection `c` maps the job to a closure. */
  predicate Mapped(s: Server, c: nat, job: string) { c in s.conns && job in s.conns[c].subs }

  function Subscribes(c: nat, job: string): Step -> bool { step => step == SubscribeReceived(c, job) }

  function Unsubscribes(c: nat, job: string): Step -> bool {
    step => step == UnsubscribeReceived(c, job) || step == Errored(c) || step == Closed(c)
  }

  lemma {:induction false} StepMaps(s: Server, step: Step, c: nat, job: string)
    requires Enabled(s, step)
    ensures Mapped(Apply(s, step), c, job) <==>
      Subscribes(c, job)(step) || (Mapped(s, c, job) && !Unsubscribes(c, job)(step))
  {
    hide RemoveSends, Add, Remove;
  }

  /** In every run a connection is subscribed to a job exactly when it asked for it and nothing ended it since. */
  lemma {:induction false} SubscribedExactlyWhen(steps: seq<Step>, states: seq<Server>, j: nat, c: nat, job: string)
    requires Run(steps, states) && j < |states|
    ensures Mapped(states[j], c, job) <==> exists i :: Since(Subscribes(c, job), Unsubscribes(c, job), steps, i, j)
  {
    hide Apply, Enabled, Since, Subscribes, Unsubscribes;
    var on := seq(|states|, k requires 0 <= k < |states| => Mapped(states[k], c, job));
    forall k | 0 <= k < |steps|
      ensures on[k + 1] <==> Subscribes(c, job)(steps[k]) || (on[k] && !Unsubscribes(c, job)(steps[k]))
    {
      StepMaps(states[k], steps[k], c, job);
    }
    OnExactlySince(on, Subscribes(c, job), Unsubscribes(c, job), steps, j);
  }

  predicate IsOpen(s: Server, c: nat) { c in s.conns && s.conns[c].open }

  function Connects(c: nat): Step -> bool { step => step == Connected(c) }

  function Leaves(c: nat): Step -> bool {
    step => step == PeerClosing(c) || step == AuthRefused(c) || step == Closed(c)
  }

  lemma {:induction false} StepOpens(s: Server, step: Step, c: nat)
    requires Enabled(s, step)
    ensures IsOpen(Apply(s, step), c) <==> Connects(c)(step) || (IsOpen(s, c) && !Leaves(c)(step))
  {
    hide RemoveSends, Add, Remove;
  }

  /** In every run a socket is open exactly from its connection on until a side closes it. */
  lemma {:induction false} OpenExactlyWhen(steps: seq<Step>, states: seq<Server>, j: nat, c: nat)
    requires Run(steps, states) && j < |states|
    ensures IsOpen(states[j], c) <==> exists i :: Since(Connects(c), Leaves(c), steps, i, j)
  {
    hide Apply, Enabled, Since, Connects, Leaves;
    var on := seq(|states|, k requires 0 <= k < |states| => IsOpen(states[k], c));
    forall k | 0 <= k < |steps| ensures on[k + 1] <==> Connects(c)(steps[k]) || (on[k] && !Leaves(c)(steps[k])) {
      StepOpens(states[k], steps[k], c);
    }
    OnExactlySince(on, Connects(c), Leaves(c), steps, j);
  }

  function Drops(c: nat): Step -> bool { step => step == Errored(c) || step == Closed(c) }

  lemma {:induction false} StepRegisters(s: Server, step: Step, c: nat)
    requires Enabled(s, step)
    ensures c in Apply(s, step).registry <==> Connects(c)(step) || (c in s.registry && !Drops(c)(step))
  {
    hide RemoveSends, Add, Remove;
  }

  /** In every run the registry of connections holds one exactly until its first error or close event. */
  lemma {:induction false} RegisteredExactlyWhen(steps: seq<Step>, states: seq<Server>, j: nat, c: nat)
    requires Run(steps, states) && j < |states|
    ensures c in states[j].registry <==> exists i :: Since(Connects(c), Drops(c), steps, i, j)
  {
    hide Apply, Enabled, Since, Connects, Drops;
    var on := seq(|states|, k requires 0 <= k < |states| => c in states[k].registry);
    forall k | 0 <= k < |steps| ensures on[k + 1] <==> Connects(c)(steps[k]) || (on[k] && !Drops(c)(steps[k])) {
      StepRegisters(states[k], steps[k], c);
    }
    OnExactlySince(on, Connects(c), Drops(c), steps, j);
  }

  predicate LoggedIn(s: Server, c: nat, userId: string) { c in s.conns && s.conns[c].userId == Some(userId) }

  function LogsIn(c: nat, userId: string): Step -> bool { step => step == AuthAccepted(c, userId) }

  function LogsInAnyone(c: nat): Step -> bool { (step: Step) => step.AuthAccepted? && step.c == c }

  lemma {:induction false} StepLogsIn(s: Server, step: Step, c: nat, userId: string)
    requires Enabled(s, step)
    ensures LoggedIn(Apply(s, step), c, userId) <==>
      LogsIn(c, userId)(step) || (LoggedIn(s, c, userId) && !LogsInAnyone(c)(step))
  {
    hide RemoveSends, Add, Remove;
  }

  /** In every run a connection acts for the user of the last login that was accepted. */
  lemma {:induction false} LoggedInExactlyWhen(steps: seq<Step>, states: seq<Server>, j: nat, c: nat, userId: string)
    requires Run(steps, states) && j < |states|
    ensures LoggedIn(states[j], c, userId) <==>
      exists i :: Since(LogsIn(c, userId), LogsInAnyone(c), steps, i, j)
  {
    hide Apply, Enabled, Since, LogsIn, LogsInAnyone;
    var on := seq(|states|, k requires 0 <= k < |states| => LoggedIn(states[k], c, userId));
    forall k | 0 <= k < |steps|
      ensures on[k + 1] <==> LogsIn(c, userId)(steps[k]) || (on[k] && !LogsInAnyone(c)(steps[k]))
    {
      StepLogsIn(states[k], steps[k], c, userId);
    }
    OnExactlySince(on, LogsIn(c, userId), LogsInAnyone(c), steps, j);
  }

  function Count(which: Step -> bool, steps: seq<Step>): nat {
    if steps == [] then 0
    else Count(which, steps[..|steps| - 1]) + if which(steps[|steps| - 1]) then 1 else 0
  }

  function Asks(c: nat): Step -> bool { step => step == AuthReceived(c) }

  function Answers(c: nat): Step -> bool {
    (step: Step) => (step.AuthAccepted? || step.AuthRefused?) && step.c == c
  }

  function PendingAuths(s: Server, c: nat): nat { if c in s.conns then s.conns[c].pendingAuths else 0 }

  lemma {:induction false} StepAsks(s: Server, step: Step, c: nat)
    requires Enabled(s, step)
    ensures PendingAuths(Apply(s, step), c) + (if Answers(c)(step) then 1 else 0)
      == PendingAuths(s, c) + if Asks(c)(step) then 1 else 0
  {
    hide RemoveSends, Add, Remove;
  }

  /** In every run each auth message is answered at most once: what is pending is what was not answered. */
  lemma {:induction false} EachLoginIsAnsweredOnce(steps: seq<Step>, states: seq<Server>, j: nat, c: nat)
    requires Run(steps, states) && j < |states|
    ensures PendingAuths(states[j], c) + Count(Answers(c), steps[..j]) == Count(Asks(c), steps[..j])
  {
    hide Apply, Enabled, Asks, Answers;
    if j == 0 {
    } else {
      EachLoginIsAnsweredOnce(steps, states, j - 1, c);
      StepAsks(states[j - 1], steps[j - 1], c);
      assert steps[..j][..j - 1] == steps[..j - 1];
    }
  }

  lemma {:induction false} NextIsNew(s: Server, c: nat, job: string, j: string)
    requires Inv(s)
    ensures !Listed(Entries(s.bridge, j), Send(c, job, s.next))
  {
    forall i | 0 <= i < |Entries(s.bridge, j)| ensures Entries(s.bridge, j)[i].send != Send(c, job, s.next) {
      assert s.bridge[j][i] in s.bridge[j];
      var send := s.bridge[j][i].send;
      assert MapListed(s, send.conn, j);
    }
  }

  /**
   * The first subscribe message for a job creates one closure: the connection maps the job to it and the
   * bridge lists it last for the job, with the connection's user. A repeated one changes nothing, and
   * neither touches another job, another connection or the registry.
   */
  lemma {:induction false} SubscribeListsOne(s: Server, c: nat, job: string)
    requires Inv(s) && Enabled(s, SubscribeReceived(c, job))
    ensures
      var t := Apply(s, SubscribeReceived(c, job));
      && t.registry == s.registry && t.conns.Keys == s.conns.Keys
      && (forall d :: d in s.conns && d != c ==> t.conns[d] == s.conns[d])
      && (forall j :: j != job ==> Entries(t.bridge, j) == Entries(s.bridge, j) && (j in t.bridge <==> j in s.bridge))
      && (Mapped(s, c, job) ==> t.conns == s.conns && t.bridge == s.bridge)
      && (!Mapped(s, c, job) ==> exists send :: NewEntry(s, t, c, job, send))
  {
    hide Inv;
    var t := Apply(s, SubscribeReceived(c, job));
    var send := Send(c, job, s.next);
    forall j ensures !Listed(Entries(s.bridge, j), send) {
      NextIsNew(s, c, job, j);
    }
    if !Mapped(s, c, job) { assert NewEntry(s, t, c, job, send); }
  }

  /** `send` is a closure of `c` for the job that nothing knew before, and now both sides do. */
  ghost predicate NewEntry(s: Server, t: Server, c: nat, job: string, send: Send) {
    && c in s.conns && c in t.conns && s.conns[c].userId.Some?
    && send.conn == c && send.job == job
    && t.conns[c] == s.conns[c].(subs := s.conns[c].subs[job := send])
    && job in t.bridge && t.bridge[job] == Entries(s.bridge, job) + [Sub(s.conns[c].userId.value, send)]
    && (forall j :: !Listed(Entries(s.bridge, j), send))
  }

  predicate Gone(s: Server, c: nat) {
    forall j :: j in s.bridge ==> forall sub :: sub in s.bridge[j] ==> sub.send.conn != c
  }

  lemma {:induction false} NoMapNoEntry(s: Server, c: nat)
    requires Inv(s) && c in s.conns && s.conns[c].subs == map[]
    ensures Gone(s, c)
  {
  }

  lemma {:induction false} ClosedStays(steps: seq<Step>, states: seq<Server>, i: nat, j: nat, c: nat)
    requires Run(steps, states) && i <= j < |states| && c in states[i].conns && states[i].conns[c].closed
    ensures c in states[j].conns && states[j].conns[c].closed
  {
    hide RemoveSends, Add, Remove;
    if j == i {
    } else {
      ClosedStays(steps, states, i, j - 1, c);
    }
  }

  /** From the close event on, whatever still happens, the bridge lists no closure of that connection. */
  lemma {:induction false} ClosedIsGone(steps: seq<Step>, states: seq<Server>, i: nat, j: nat, c: nat)
    requires Run(steps, states) && i < j < |states| && steps[i] == Closed(c)
    ensures c in states[j].conns && states[j].conns[c].subs == map[] && Gone(states[j], c)
  {
    hide Inv, RemoveSends;
    assert states[i + 1].conns[c].closed;
    ClosedStays(steps, states, i + 1, j, c);
    RunKeepsInv(steps, states, j);
    NoOwnerNoSubs(states[j], c);
    NoMapNoEntry(states[j], c);
  }

  lemma {:induction false} EmptyMapStays(s: Server, step: Step, c: nat)
    requires Enabled(s, step) && c in s.conns && s.conns[c].subs == map[]
    requires forall job :: step != SubscribeReceived(c, job)
    ensures c in Apply(s, step).conns && Apply(s, step).conns[c].subs == map[]
  {
    hide RemoveSends, Add, Remove;
  }

  /**
   * An error event does not close the connection. From it on until the connection subscribes again,
   * whatever else happens, the bridge lists none of its closures.
   */
  lemma {:induction false} ErroredIsGone(steps: seq<Step>, states: seq<Server>, i: nat, j: nat, c: nat)
    requires Run(steps, states) && i < j < |states| && steps[i] == Errored(c)
    requires forall k, job :: i < k < j ==> steps[k] != SubscribeReceived(c, job)
    ensures c in states[j].conns && states[j].conns[c].subs == map[] && Gone(states[j], c)
  {
    hide Inv, RemoveSends, Add, Remove;
    if j == i + 1 {
      assert states[j] == Apply(states[i], steps[i]);
    } else {
      ErroredIsGone(steps, states, i, j - 1, c);
      hide Apply;
      EmptyMapStays(states[j - 1], steps[j - 1], c);
    }
    RunKeepsInv(steps, states, j);
    NoMapNoEntry(states[j], c);
  }

  /** Right after an error event the same holds, and a second cleanup changes nothing on either side. */
  lemma {:induction false} CleanupTwice(steps: seq<Step>, states: seq<Server>, i: nat, c: nat)
    requires Run(steps, states) && i < |steps| && steps[i] == Errored(c)
    ensures c in states[i + 1].conns && Gone(states[i + 1], c)
    ensures Apply(states[i + 1], Errored(c)) == states[i + 1]
  {
    hide Inv, RemoveSends;
    RunKeepsInv(steps, states, i + 1);
    NoMapNoEntry(states[i + 1], c);
    var t := states[i + 1];
    if t.conns[c].userId.Some? { NothingToRemove(t.bridge, t.conns[c].userId.value); }
    assert t.conns[c := t.conns[c]] == t.conns;
  }

  /** Unsubscribing right after a first subscription restores both sides. */
  lemma {:induction false} UnsubscribeUndoesSubscribe(s: Server, c: nat, job: string)
    requires Inv(s) && Enabled(s, SubscribeReceived(c, job)) && job !in s.conns[c].subs
    ensures var t := Apply(Apply(s, SubscribeReceived(c, job)), UnsubscribeReceived(c, job));
      t.conns == s.conns && t.bridge == s.bridge
  {
    hide Inv, Kept;
    var k := s.conns[c];
    var send := Send(c, job, s.next);
    NotYetListed(s, c, job);
    KeptDropsLast(Entries(s.bridge, job), k.userId.value, send);
    BackedEntries(s, job);
    assert k.subs[job := send] - {job} == k.subs;
    var b := Add(s.bridge, job, k.userId.value, send);
    assert Remove(b, job, k.userId.value, Some(send)) == s.bridge;
    var t := Apply(s, SubscribeReceived(c, job));
    assert t.conns[c := k] == s.conns;
  }

  lemma {:induction false} BackedEntries(s: Server, job: string)
    requires Inv(s)
    ensures job in s.bridge ==> s.bridge[job] != []
  {
    hide MapListed, Owns;
    assert job in s.bridge ==> s.bridge[job] != [] && DistinctSends(s.bridge[job]);
  }

  lemma {:induction false} KeptDropsLast(entries: seq<Sub>, userId: string, send: Send)
    requires forall i :: 0 <= i < |entries| ==> entries[i].send != send
    ensures Kept(entries + [Sub(userId, send)], userId, Some(send)) == entries
  {
    if entries == [] {
    } else {
      KeptDropsLast(entries[1..], userId, send);
      assert (entries + [Sub(userId, send)])[1..] == entries[1..] + [Sub(userId, send)];
    }
  }

  // ---------------------------------------------------------------- dispatch

  /** Calling a closure: it looks its job up in its connection's map and at the socket. */
  predicate Accepts(s: Server, send: Send) {
    send.conn in s.conns && send.job in s.conns[send.conn].subs && s.conns[send.conn].open
  }

  /** The i-th call gets through: its closure, called in state `at[i]`, reaches the socket and does not throw. */
  predicate GetsThrough(entries: seq<Sub>, at: seq<Server>, thrown: seq<bool>, i: nat)
    requires i < |entries| == |at| == |thrown|
  {
    Accepts(at[i], entries[i].send) && !thrown[i]
  }

  /** The connections that get the event when the i-th closure is called in `at[i]` and throws if `thrown[i]`. */
  function Delivered(entries: seq<Sub>, at: seq<Server>, thrown: seq<bool>): seq<nat>
    requires |entries| == |at| == |thrown|
  {
    if entries == [] then []
    else
      var n := |entries| - 1;
      Delivered(entries[..n], at[..n], thrown[..n])
      + (if GetsThrough(entries, at, thrown, n) then [entries[n].send.conn] else [])
  }

  predicate DistinctConns(entries: seq<Sub>) {
    forall i, j :: 0 <= i < j < |entries| ==> entries[i].send.conn != entries[j].send.conn
  }

  lemma {:induction false} ListedOncePerConnection(s: Server, job: string)
    requires Inv(s)
    ensures DistinctConns(Entries(s.bridge, job))
    ensures forall c :: c in s.conns && job in s.conns[c].subs ==>
      Listed(Entries(s.bridge, job), s.conns[c].subs[job])
  {
    var entries := Entries(s.bridge, job);
    forall i, j | 0 <= i < j < |entries| ensures entries[i].send.conn != entries[j].send.conn {
      assert entries[i] in s.bridge[job] && entries[j] in s.bridge[job];
    }
    forall c | c in s.conns && job in s.conns[c].subs ensures Listed(entries, s.conns[c].subs[job]) {
      assert MapListed(s, c, job);
    }
  }

  /** The call of the i-th listed closure gets through to connection `c`. */
  predicate Reaches(entries: seq<Sub>, at: seq<Server>, thrown: seq<bool>, i: nat, c: nat)
    requires i < |entries| == |at| == |thrown|
  {
    entries[i].send.conn == c && GetsThrough(entries, at, thrown, i)
  }

  lemma {:induction false} ReachesInPrefix(
      entries: seq<Sub>, at: seq<Server>, thrown: seq<bool>, n: nat, i: nat, c: nat)
    requires i < n <= |entries| == |at| == |thrown|
    ensures Reaches(entries[..n], at[..n], thrown[..n], i, c) == Reaches(entries, at, thrown, i, c)
  {
  }

  lemma {:induction false} DeliveredLast(entries: seq<Sub>, at: seq<Server>, thrown: seq<bool>, n: nat, c: nat)
    requires |entries| == |at| == |thrown| == n + 1
    ensures multiset(Delivered(entries, at, thrown))[c] ==
      multiset(Delivered(entries[..n], at[..n], thrown[..n]))[c] + if Reaches(entries, at, thrown, n, c) then 1 else 0
  {
    hide Accepts;
  }

  /** A connection gets the event when the call of a listed closure of its own gets through: at most once. */
  lemma {:induction false} DeliveredCount(entries: seq<Sub>, at: seq<Server>, thrown: seq<bool>, c: nat)
    requires |entries| == |at| == |thrown| && DistinctConns(entries)
    ensures c in Delivered(entries, at, thrown) <==>
      exists i :: 0 <= i < |entries| && Reaches(entries, at, thrown, i, c)
    ensures multiset(Delivered(entries, at, thrown))[c] <= 1
  {
    if entries == [] {
    } else {
      var n := |entries| - 1;
      DeliveredCount(entries[..n], at[..n], thrown[..n], c);
      DeliveredLast(entries, at, thrown, n, c);
      hide Delivered, GetsThrough;
      forall i | 0 <= i < n
        ensures Reaches(entries[..n], at[..n], thrown[..n], i, c) == Reaches(entries, at, thrown, i, c)
      {
        ReachesInPrefix(entries, at, thrown, n, i, c);
      }
    }
  }

  /** When each closure of the snapshot is called, as indices into the states of a run. */
  ghost predicate Schedule(visits: seq<nat>, start: nat, end: nat) {
    forall i :: 0 <= i < |visits| ==> start <= visits[i] < end
  }

  predicate OwnCallThrows(entries: seq<Sub>, thrown: seq<bool>, c: nat)
    requires |entries| == |thrown|
  {
    exists i :: 0 <= i < |entries| && entries[i].send.conn == c && thrown[i]
  }

  function StatesAt(states: seq<Server>, visits: seq<nat>): (r: seq<Server>)
    requires forall i :: 0 <= i < |visits| ==> visits[i] < |states|
  {
    seq(|visits|, i requires 0 <= i < |visits| => states[visits[i]])
  }

  /**
   * One event is dispatched to the set found when it arrives, while handlers keep running between
   * the calls and some calls throw. Every connection gets it at most once; a connection that stays
   * subscribed and open from the arrival on gets it exactly once unless its own call throws, whatever
   * the others do; and whoever gets it was subscribed when it arrived and is subscribed and open when
   * called.
   */
  lemma {:induction false} ExactlyOnce(
      steps: seq<Step>, states: seq<Server>, start: nat, visits: seq<nat>, thrown: seq<bool>, job: string, c: nat)
    requires Run(steps, states) && start < |states| && Schedule(visits, start, |states|)
    requires |visits| == |Entries(states[start].bridge, job)| == |thrown|
    ensures
      var entries := Entries(states[start].bridge, job);
      var got := Delivered(entries, StatesAt(states, visits), thrown);
      && multiset(got)[c] <= 1
      && ((forall i :: start <= i < |states| ==> Subscribed(states[i], c, job)) ==>
            multiset(got)[c] == if OwnCallThrows(entries, thrown, c) then 0 else 1)
      && (c in got ==>
            && c in states[start].conns && job in states[start].conns[c].subs
            && exists i :: start <= i < |states| && Subscribed(states[i], c, job))
  {
    hide Inv, Delivered, Owns, Apply, Enabled;
    var entries := Entries(states[start].bridge, job);
    var at := StatesAt(states, visits);
    RunKeepsInv(steps, states, start);
    ListedOncePerConnection(states[start], job);
    DeliveredCount(entries, at, thrown, c);
    ListedForJob(states[start], job);
    if forall i :: start <= i < |states| ==> Subscribed(states[i], c, job) {
      assert Subscribed(states[start], c, job);
      var i :| 0 <= i < |entries| && entries[i].send == states[start].conns[c].subs[job];
      assert entries[i].send.conn == c;
      assert Subscribed(states[visits[i]], c, job);
      assert Reaches(entries, at, thrown, i, c) <==> !thrown[i];
    }
    if c in Delivered(entries, at, thrown) {
      var i :| 0 <= i < |entries| && Reaches(entries, at, thrown, i, c);
      assert Subscribed(states[visits[i]], c, job);
    }
  }

  /**
   * A subscribe message is answered with events: while no message ends the subscription and no side
   * closes the socket, every event that arrives after the message reaches the connection exactly once,
   * unless its own call throws.
   */
  lemma {:induction false} SubscriberGetsEvent(
      steps: seq<Step>, states: seq<Server>, m: nat, start: nat, visits: seq<nat>, thrown: seq<bool>, job: string,
      c: nat)
    requires Run(steps, states) && m < start < |states| && Schedule(visits, start, |states|)
    requires |visits| == |Entries(states[start].bridge, job)| == |thrown|
    requires Subscribes(c, job)(steps[m])
    requires forall k :: m < k < |steps| ==> !Unsubscribes(c, job)(steps[k])
    requires forall k :: 0 <= k < |steps| ==> !Leaves(c)(steps[k])
    ensures
      var entries := Entries(states[start].bridge, job);
      multiset(Delivered(entries, StatesAt(states, visits), thrown))[c] ==
        if OwnCallThrows(entries, thrown, c) then 0 else 1
  {
    hide Delivered, OwnCallThrows, Entries;
    forall i | start <= i < |states| ensures Subscribed(states[i], c, job) {
      SubscribedExactlyWhen(steps, states, i, c, job);
      assert Since(Subscribes(c, job), Unsubscribes(c, job), steps, m, i);
      StaysOpen(steps, states, m, i, c, job);
    }
    ExactlyOnce(steps, states, start, visits, thrown, job, c);
  }

  lemma {:induction false} StaysOpen(
      steps: seq<Step>, states: seq<Server>, m: nat, i: nat, c: nat, job: string)
    requires Run(steps, states) && m < i < |states| && steps[m] == SubscribeReceived(c, job)
    requires forall k :: 0 <= k < |steps| ==> !Leaves(c)(steps[k])
    ensures IsOpen(states[i], c)
  {
    assert Enabled(states[m], steps[m]) && c in states[m].conns;
    KnownWasConnected(steps, states, m, c);
    var o :| 0 <= o < m && steps[o] == Connected(c);
    OpenExactlyWhen(steps, states, i, c);
    assert Since(Connects(c), Leaves(c), steps, o, i);
  }

  lemma {:induction false} KnownWasConnected(steps: seq<Step>, states: seq<Server>, j: nat, c: nat)
    requires Run(steps, states) && j < |states| && c in states[j].conns
    ensures exists o :: 0 <= o < j && steps[o] == Connected(c)
  {
    hide RemoveSends, Add, Remove;
    if j == 0 {
    } else {
      assert states[j] == Apply(states[j - 1], steps[j - 1]);
      if c in states[j - 1].conns {
        KnownWasConnected(steps, states, j - 1, c);
      } else {
        assert steps[j - 1] == Connected(c);
      }
    }
  }

  /** From the first connection to the first subscription: the closure is listed for the user who logged in. */
  lemma {:induction false} FirstSubscriber(userId: string, job: string) returns (steps: seq<Step>, states: seq<Server>)
    ensures Run(steps, states)
    ensures steps == [Connected(0), AuthReceived(0), AuthAccepted(0, userId), SubscribeReceived(0, job)]
    ensures states[4].bridge == map[job := [Sub(userId, Send(0, job, 0))]]
    ensures Subscribed(states[4], 0, job) && states[4].registry == {0}
  {
    steps := [Connected(0), AuthReceived(0), AuthAccepted(0, userId), SubscribeReceived(0, job)];
    var k := Connection(None, map[], true, false, 0);
    var user := k.(userId := Some(userId));
    var send := Send(0, job, 0);
    states := [
      Initial,
      Server(map[], map[0 := k], {0}, 0),
      Server(map[], map[0 := k.(pendingAuths := 1)], {0}, 0),
      Server(map[], map[0 := user], {0}, 0),
      Server(map[job := [Sub(userId, send)]], map[0 := user.(subs := map[job := send])], {0}, 1)];
    forall i | 0 <= i < 4 ensures states[i + 1].conns == states[i].conns[0 := states[i + 1].conns[0]] {
    }
    assert Entries(map[], job) + [Sub(userId, send)] == [Sub(userId, send)];
    assert states[4].bridge == states[3].bridge[job := [Sub(userId, send)]];
    assert user.subs[job := send] == map[job := send];
    assert states[4] == Apply(states[3], steps[3]);
  }

  predicate Subscribed(s: Server, c: nat, job: string) { c in s.conns && job in s.conns[c].subs && s.conns[c].open }

  lemma {:induction false} ListedForJob(s: Server, job: string)
    requires Inv(s)
    ensures forall i :: 0 <= i < |Entries(s.bridge, job)| ==>
      var send := Entries(s.bridge, job)[i].send;
      send.job == job && send.conn in s.conns && job in s.conns[send.conn].subs
    ensures forall c :: c in s.conns && job in s.conns[c].subs ==> s.conns[c].subs[job].conn == c
  {
    assert forall c :: c in s.conns && job in s.conns[c].subs ==> MapListed(s, c, job);
    var entries := Entries(s.bridge, job);
    forall i | 0 <= i < |entries|
      ensures entries[i].send.job == job
      ensures entries[i].send.conn in s.conns && job in s.conns[entries[i].send.conn].subs
    {
      assert entries[i] in s.bridge[job];
      assert MapListed(s, entries[i].send.conn, job);
    }
  }

  // ---------------------------------------------------------------- the bridge's code

  /** A set object of the bridge; the code never writes one that it has stored. */
  class EntrySet {
    var entries: seq<Sub>

    constructor (initial: seq<Sub>)
      ensures entries == initial
    {
      entries := initial;
    }
  }

  /** What other handlers do to the bridge while a dispatch is calling closures. */
  datatype Change =
    | Added(job: string, userId: string, send: Send)
    | Dropped(job: string, userId: string, which: Option<Send>)

  function Changed(b: Bridge, change: Change): Bridge {
    match change
    case Added(job, userId, send) => Add(b, job, userId, send)
    case Dropped(job, userId, which) => Remove(b, job, userId, which)
  }

  function ChangedAll(b: Bridge, changes: seq<Change>): Bridge {
    if changes == [] then b
    else Changed(ChangedAll(b, changes[..|changes| - 1]), changes[|changes| - 1])
  }

  /** The index after `calls` closures, where the i-th call sets off the changes `meanwhile(i)`. */
  function AfterCalls(b: Bridge, meanwhile: nat -> seq<Change>, calls: nat): Bridge {
    if calls == 0 then b else ChangedAll(AfterCalls(b, meanwhile, calls - 1), meanwhile(calls - 1))
  }

  function Sends(entries: seq<Sub>): seq<Send> {
    seq(|entries|, i requires 0 <= i < |entries| => entries[i].send)
  }

  /** The first `n` values of a function. */
  function Firsts<T>(f: nat -> T, n: nat): seq<T> { seq(n, i requires 0 <= i < n => f(i)) }

  lemma {:induction false} DeliveredNext(entries: seq<Sub>, at: nat -> Server, throws: nat -> bool, i: nat)
    requires i < |entries|
    ensures Delivered(entries[..i + 1], Firsts(at, i + 1), Firsts(throws, i + 1))
      == Delivered(entries[..i], Firsts(at, i), Firsts(throws, i))
        + (if Accepts(at(i), entries[i].send) && !throws(i) then [entries[i].send.conn] else [])
  {
    assert entries[..i + 1][..i] == entries[..i];
    assert Firsts(at, i + 1)[..i] == Firsts(at, i);
    assert Firsts(throws, i + 1)[..i] == Firsts(throws, i);
  }

  class QueueEventsBridge {
    var subscriptions: map<string, EntrySet>

    ghost function View(): Bridge
      reads this, subscriptions.Values
    {
      map job | job in subscriptions :: subscriptions[job].entries
    }

    constructor ()
      ensures View() == map[]
    {
      subscriptions := map[];
    }

    method AddSubscription(job: string, userId: string, send: Send)
      modifies this
      ensures View() == Add(old(View()), job, userId, send)
    {
      var existing: seq<Sub> := [];
      if job in subscriptions {
        existing := subscriptions[job].entries;
      }
      var next := new EntrySet(existing + [Sub(userId, send)]);
      subscriptions := subscriptions[job := next];
    }

    method RemoveSubscription(job: string, userId: string, send: Option<Send>)
      modifies this
      ensures View() == Remove(old(View()), job, userId, send)
      ensures forall sub :: sub in Entries(View(), job) <==>
        && sub in Entries(old(View()), job)
        && match send { case Some(value) => sub.send != value case None => sub.userId != userId }
      ensures forall j :: j != job ==> Entries(View(), j) == Entries(old(View()), j)
    {
      if job !in subscriptions {
        return;
      }
      var next := new EntrySet(Kept(subscriptions[job].entries, userId, send));
      if next.entries == [] {
        subscriptions := subscriptions - {job};
      } else {
        subscriptions := subscriptions[job := next];
      }
    }

    method RunHandlers(changes: seq<Change>)
      modifies this
      ensures View() == ChangedAll(old(View()), changes)
    {
      var i := 0;
      while i < |changes|
        invariant 0 <= i <= |changes|
        invariant View() == ChangedAll(old(View()), changes[..i])
      {
        match changes[i] {
          case Added(job, userId, send) => AddSubscription(job, userId, send);
          case Dropped(job, userId, which) => RemoveSubscription(job, userId, which);
        }
        assert changes[..i + 1][..i] == changes[..i];
        i := i + 1;
      }
      assert changes[..i] == changes;
    }

    /** One call of a closure; the catch block does nothing. */
    method TrySend(send: Send, s: Server, throws: bool) returns (got: seq<nat>)
      ensures got == if Accepts(s, send) && !throws then [send.conn] else []
    {
      got := [];
      if Accepts(s, send) {
        if !throws {
          got := [send.conn];
        }
      }
    }

    /**
     * `dispatch` iterates over the live set object. The closures called are those listed when the
     * event arrived, each once and in order, whatever is added or removed between the calls and
     * whichever calls throw. The i-th call meets the connections of `at(i)`.
     */
    method Dispatch(job: string, at: nat -> Server, throws: nat -> bool, meanwhile: nat -> seq<Change>)
      returns (called: seq<Send>, delivered: seq<nat>)
      modifies this
      ensures called == Sends(Entries(old(View()), job))
      ensures delivered ==
        Delivered(Entries(old(View()), job), Firsts(at, |called|), Firsts(throws, |called|))
      ensures View() == AfterCalls(old(View()), meanwhile, |called|)
    {
      called, delivered := [], [];
      if job !in subscriptions {
        return;
      }
      var subs := subscriptions[job];
      var i := 0;
      assert delivered == Delivered(subs.entries[..i], Firsts(at, i), Firsts(throws, i));
      hide Delivered, Firsts, Accepts, ChangedAll;
      while i < |subs.entries|
        invariant 0 <= i <= |subs.entries|
        invariant subs.entries == old(subs.entries)
        invariant called == Sends(subs.entries[..i])
        invariant delivered == Delivered(subs.entries[..i], Firsts(at, i), Firsts(throws, i))
        invariant View() == AfterCalls(old(View()), meanwhile, i)
      {
        called := called + [subs.entries[i].send];
        var got := TrySend(subs.entries[i].send, at(i), throws(i));
        delivered := delivered + got;
        DeliveredNext(subs.entries, at, throws, i);
        RunHandlers(meanwhile(i));
        i := i + 1;
      }
      assert subs.entries[..i] == subs.entries;
    }
  }

  // ---------------------------------------------------------------- the handlers' code

  class WsConnection {
    const id: nat
    const eventBridge: QueueEventsBridge
    var userId: Option<string>
    var subscriptions: map<string, Send>
    var open: bool
    var closed: bool
    var pendingAuths: nat

    ghost function View(): Connection
      reads this
    {
      Connection(userId, subscriptions, open, closed, pendingAuths)
    }

    constructor (id: nat, eventBridge: QueueEventsBridge)
      ensures View() == Connection(None, map[], true, false, 0)
      ensures this.id == id && this.eventBridge == eventBridge
    {
      this.id, this.eventBridge := id, eventBridge;
      userId, subscriptions, open, closed, pendingAuths := None, map[], true, false, 0;
    }

    /** `serial` is the identity of the closure that a first subscription creates. */
    method OnSubscribe(job: string, serial: nat)
      requires userId.Some?
      modifies this, eventBridge
      ensures (View(), eventBridge.View()) == Subscribe(old(View()), old(eventBridge.View()), id, job, serial)
      ensures View() == old(View()).(subs := subscriptions)
      ensures job in old(subscriptions) ==>
        subscriptions == old(subscriptions) && eventBridge.View() == old(eventBridge.View())
      ensures job !in old(subscriptions) ==>
        && subscriptions == old(subscriptions)[job := Send(id, job, serial)]
        && eventBridge.View() == old(eventBridge.View())[
             job := Entries(old(eventBridge.View()), job) + [Sub(userId.value, Send(id, job, serial))]]
    {
      if job !in subscriptions {
        var send := Send(id, job, serial);
        subscriptions := subscriptions[job := send];
        eventBridge.AddSubscription(job, userId.value, send);
      }
    }

    method OnUnsubscribe(job: string)
      requires userId.Some?
      modifies this, eventBridge
      ensures (View(), eventBridge.View()) == Unsubscribe(old(View()), old(eventBridge.View()), job)
      ensures View() == old(View()).(subs := old(subscriptions) - {job})
      ensures job !in old(subscriptions) ==> eventBridge.View() == old(eventBridge.View())
      ensures job in old(subscriptions) ==>
        !Listed(Entries(eventBridge.View(), job), old(subscriptions)[job])
    {
      if job in subscriptions {
        var send := subscriptions[job];
        subscriptions := subscriptions - {job};
        eventBridge.RemoveSubscription(job, userId.value, Some(send));
      }
    }

    method CleanupConnection()
      modifies this, eventBridge
      ensures (View(), eventBridge.View()) == Cleanup(old(View()), old(eventBridge.View()))
      ensures View() == old(View()).(subs := map[])
      ensures userId.Some? ==> forall job :: job in old(subscriptions) ==>
        !Listed(Entries(eventBridge.View(), job), old(subscriptions)[job])
    {
      if userId.Some? {
        var rest := subscriptions.Keys;
        ghost var done: map<string, Send> := map[];
        ghost var before := eventBridge.View();
        NothingToRemove(before, userId.value);
        while rest != {}
          invariant rest <= subscriptions.Keys && done == subscriptions - rest
          invariant View() == old(View())
          invariant eventBridge.View() == RemoveSends(before, userId.value, done)
          decreases rest
        {
          var job :| job in rest;
          eventBridge.RemoveSubscription(job, userId.value, Some(subscriptions[job]));
          RemoveSendsStep(before, userId.value, done, job, subscriptions[job]);
          rest := rest - {job};
          done := done[job := subscriptions[job]];
        }
        assert done == subscriptions;
        RemovedAreGone(before, userId.value, subscriptions);
      }
      subscriptions := map[];
    }
  }
}
