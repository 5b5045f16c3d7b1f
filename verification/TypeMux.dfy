/**
 event/event.go as atomic steps of any number of concurrent Subscribe, Post, Unsubscribe and Stop
 calls. A section under a lock that does not block inside is one step; Stop keeps the mux's mutex
 over all of its closewait calls, and closewait keeps closeMu while it waits for postMu.

 A channel operation that Go answers with a panic sets panicked.
 */
module TypeMux {
  import opened Wrappers
  import opened CaseLists

  type Type = nat

  /**
   A TypeMuxSubscription. closing and chanClosed say that the closing channel and the event channel
   are closed, postNil that postC was set to nil, readers who holds postMu for reading.
   known says that Subscribe has finished with it, given that it returned it, and owner which call
   that was.
   */
  datatype Subscription = Subscription(
    created: nat, closeMu: Option<nat>, closed: bool, closing: bool, chanClosed: bool, postNil: bool,
    readers: set<nat>, owner: nat, known: bool, given: bool)

  /** One call and where it is. A select looks at postC once, on entry; open says that it was not nil. */
  datatype Call =
    | Subscribing(sub: nat, types: seq<Type>)           // made by newsub; before mutex.Lock
    | Subscribed(sub: nat)
    | DuplicateType(sub: nat)                           // panicked with "duplicate type"
    | Posting(typ: Type, time: nat)                     // before mutex.RLock
    | Delivering(time: nat, list: seq<nat>, i: nat)     // before deliver on list[i]
    | AtSelect(time: nat, list: seq<nat>, i: nat, open: bool)   // in deliver, holding postMu for reading
    | Posted(time: nat, list: seq<nat>)
    | ErrMuxClosed
    | Unsubscribing(sub: nat)                           // before del
    | StopCalled                                        // before mutex.Lock in Stop
    | Closing(done: seq<nat>, todo: seq<nat>, stop: bool)   // closewait returned for done; next is todo[0]
    | Draining(done: seq<nat>, todo: seq<nat>, stop: bool)  // in closewait on todo[0], before postMu.Lock
    | Finished(done: seq<nat>, stop: bool)

  datatype Delivery = Delivery(call: nat, sub: nat, time: nat)

  datatype State = State(
    lock: Option<nat>, stopped: bool, subm: map<Type, seq<nat>>, subs: seq<Subscription>,
    calls: seq<Call>, clock: nat, log: seq<Delivery>, panicked: bool)

  function Init(): State {
    State(None, false, map[], [], [], 0, [], false)
  }

  function Listed(subm: map<Type, seq<nat>>, t: Type): seq<nat> {
    if t in subm then subm[t] else []
  }

  /** The loop of Subscribe: false when a type comes twice, with the earlier ones already registered. */
  function Register(subm: map<Type, seq<nat>>, types: seq<Type>, sub: nat): (map<Type, seq<nat>>, bool)
    decreases |types|
  {
    if types == [] then (subm, true)
    else if sub in Listed(subm, types[0]) then (subm, false)
    else Register(subm[types[0] := Listed(subm, types[0]) + [sub]], types[1..], sub)
  }

  function IndexOf(list: seq<nat>, sub: nat): (i: nat)
    requires sub in list
    ensures i < |list| && list[i] == sub
  {
    if list[0] == sub then 0 else IndexOf(list[1..], sub) + 1
  }

  function Without(list: seq<nat>, sub: nat): seq<nat> {
    if sub in list then Delete(list, IndexOf(list, sub)) else list
  }

  /** del */
  function Unlist(subm: map<Type, seq<nat>>, sub: nat): map<Type, seq<nat>> {
    map t | t in subm && subm[t] != [sub] :: Without(subm[t], sub)
  }

  ghost predicate IsListed(subm: map<Type, seq<nat>>, sub: nat) {
    exists t :: t in subm && sub in subm[t]
  }

  datatype Step =
    | Tick
    | NewSub(types: seq<Type>)
    | Enter(p: nat)
    | NewPost(typ: Type)
    | ReadSubs(p: nat)
    | BeginDeliver(p: nat)
    | Send(p: nat)
    | Skip(p: nat)
    | EndPost(p: nat)
    | CallUnsubscribe(sub: nat)
    | Del(p: nat)
    | CallStop
    | StopLock(p: nat, order: seq<nat>)
    | BeginClose(p: nat)
    | EndClose(p: nat)
    | Finish(p: nat)

  ghost predicate Enabled(s: State, e: Step) {
    match e
    case Tick => true
    case NewSub(_) => true
    case Enter(p) => p < |s.calls| && s.calls[p].Subscribing? && s.lock == None && s.calls[p].sub < |s.subs|
    case NewPost(_) => true
    case ReadSubs(p) => p < |s.calls| && s.calls[p].Posting? && s.lock == None
    case BeginDeliver(p) =>
      p < |s.calls| && s.calls[p].Delivering? && s.calls[p].i < |s.calls[p].list|
      && s.calls[p].list[s.calls[p].i] < |s.subs|
    case Send(p) => Selecting(s, p) && s.calls[p].open
    case Skip(p) => Selecting(s, p) && s.subs[s.calls[p].list[s.calls[p].i]].closing
    case EndPost(p) => p < |s.calls| && s.calls[p].Delivering? && s.calls[p].i == |s.calls[p].list|
    case CallUnsubscribe(k) => k < |s.subs| && s.subs[k].given
    case Del(p) => p < |s.calls| && s.calls[p].Unsubscribing? && s.lock == None
    case CallStop => true
    case StopLock(p, order) =>
      p < |s.calls| && s.calls[p].StopCalled? && s.lock == None
      && forall k :: k in order <==> IsListed(s.subm, k)
    case BeginClose(p) =>
      p < |s.calls| && s.calls[p].Closing? && s.calls[p].todo != [] && s.calls[p].todo[0] < |s.subs|
      && s.subs[s.calls[p].todo[0]].closeMu == None
    case EndClose(p) =>
      p < |s.calls| && s.calls[p].Draining? && s.calls[p].todo != [] && s.calls[p].todo[0] < |s.subs|
      && s.subs[s.calls[p].todo[0]].readers == {}
    case Finish(p) => p < |s.calls| && s.calls[p].Closing? && s.calls[p].todo == []
  }

  predicate Selecting(s: State, p: nat) {
    p < |s.calls| && s.calls[p].AtSelect? && s.calls[p].i < |s.calls[p].list| && s.calls[p].list[s.calls[p].i] < |s.subs|
  }

  function Move(s: State, p: nat, c: Call): State
    requires p < |s.calls|
  {
    s.(calls := s.calls[p := c])
  }

  function SetSub(s: State, k: nat, x: Subscription): State
    requires k < |s.subs|
  {
    s.(subs := s.subs[k := x])
  }

  ghost function Next(s: State, e: Step): State
    requires Enabled(s, e)
  {
    match e
    case Tick => s.(clock := s.clock + 1)
    case NewSub(types) =>
      var x := Subscription(s.clock, None, false, false, false, false, {}, |s.calls|, false, false);
      s.(subs := s.subs + [x], calls := s.calls + [Subscribing(|s.subs|, types)])
    case Enter(p) => Entered(s, p)
    case NewPost(t) => s.(calls := s.calls + [Posting(t, s.clock)])
    case ReadSubs(p) =>
      Move(s, p, if s.stopped then ErrMuxClosed else Delivering(s.calls[p].time, Listed(s.subm, s.calls[p].typ), 0))
    case BeginDeliver(p) =>
      var c := s.calls[p];
      var k := c.list[c.i];
      if s.subs[k].created > c.time then Move(s, p, Delivering(c.time, c.list, c.i + 1))
      else SetSub(Move(s, p, AtSelect(c.time, c.list, c.i, !s.subs[k].postNil)), k, s.subs[k].(readers := s.subs[k].readers + {p}))
    case Send(p) =>
      var c := s.calls[p];
      var k := c.list[c.i];
      SetSub(Move(s, p, Delivering(c.time, c.list, c.i + 1)), k, s.subs[k].(readers := s.subs[k].readers - {p}))
        .(log := s.log + [Delivery(p, k, c.time)], panicked := s.panicked || s.subs[k].chanClosed)
    case Skip(p) =>
      var c := s.calls[p];
      var k := c.list[c.i];
      SetSub(Move(s, p, Delivering(c.time, c.list, c.i + 1)), k, s.subs[k].(readers := s.subs[k].readers - {p}))
    case EndPost(p) => Move(s, p, Posted(s.calls[p].time, s.calls[p].list))
    case CallUnsubscribe(k) => s.(calls := s.calls + [Unsubscribing(k)])
    case Del(p) =>
      Move(s, p, Closing([], [s.calls[p].sub], false)).(subm := Unlist(s.subm, s.calls[p].sub))
    case CallStop => s.(calls := s.calls + [StopCalled])
    case StopLock(p, order) => Move(s, p, Closing([], order, true)).(lock := Some(p))
    case BeginClose(p) =>
      var c := s.calls[p];
      var k := c.todo[0];
      var x := s.subs[k];
      if x.closed then Move(s, p, Closing(c.done + [k], c.todo[1..], c.stop))
      else SetSub(Move(s, p, Draining(c.done, c.todo, c.stop)), k, x.(closeMu := Some(p), closed := true, closing := true))
        .(panicked := s.panicked || x.closing)
    case EndClose(p) =>
      var c := s.calls[p];
      var k := c.todo[0];
      var x := s.subs[k];
      SetSub(Move(s, p, Closing(c.done + [k], c.todo[1..], c.stop)), k,
             x.(closeMu := None, chanClosed := true, postNil := true))
        .(panicked := s.panicked || x.chanClosed || x.postNil)
    case Finish(p) =>
      var c := s.calls[p];
      if c.stop then Move(s, p, Finished(c.done, true)).(lock := None, subm := map[], stopped := true)
      else Move(s, p, Finished(c.done, false))
  }

  /** Subscribe under the mutex. */
  ghost function Entered(s: State, p: nat): State
    requires Enabled(s, Enter(p))
  {
    var c := s.calls[p];
    var x := s.subs[c.sub];
    if s.stopped then
      SetSub(Move(s, p, Subscribed(c.sub)), c.sub, x.(closed := true, chanClosed := true, known := true, given := true))
        .(panicked := s.panicked || x.chanClosed)
    else
      var (subm, ok) := Register(s.subm, c.types, c.sub);
      SetSub(Move(s, p, if ok then Subscribed(c.sub) else DuplicateType(c.sub)), c.sub, x.(known := true, given := ok))
        .(subm := subm)
  }

  // ---------- the invariant ----------

  /** Its closewait has finished, or it was closed by a Subscribe after Stop. */
  predicate Shut(x: Subscription) {
    x.closed && x.closeMu == None
  }

  /** Closed by a Subscribe after Stop: the channel is closed but postC is not nil. */
  predicate BornClosed(x: Subscription) {
    x.closed && !x.closing
  }

  /** May be in a list: Subscribe is done with it and did not close it. */
  predicate Live(s: State, k: nat) {
    k < |s.subs| && s.subs[k].known && !BornClosed(s.subs[k])
  }

  ghost predicate SubOk(s: State, k: nat)
    requires k < |s.subs|
  {
    var x := s.subs[k];
    && (!x.closed ==> !x.closing && !x.chanClosed && !x.postNil && x.closeMu == None)
    && (x.closing && x.closeMu != None ==> !x.chanClosed && !x.postNil)
    && (x.closing && x.closeMu == None ==> x.chanClosed && x.postNil)
    && (BornClosed(x) ==> x.chanClosed && x.closeMu == None)
    && (!Live(s, k) ==> x.readers == {})
    && (x.closeMu.Some? ==> DrainedBy(s, k, x.closeMu.value))
    && (forall p :: p in x.readers ==> ReadBy(s, k, p))
  }

  ghost predicate DrainedBy(s: State, k: nat, p: nat) {
    p < |s.calls| && s.calls[p].Draining? && s.calls[p].todo != [] && s.calls[p].todo[0] == k
  }

  ghost predicate ReadBy(s: State, k: nat, p: nat) {
    p < |s.calls| && s.calls[p].AtSelect? && s.calls[p].i < |s.calls[p].list| && s.calls[p].list[s.calls[p].i] == k
  }

  ghost predicate AllLive(s: State, list: seq<nat>) {
    forall k :: k in list ==> Live(s, k)
  }

  ghost predicate AllKnown(s: State, list: seq<nat>) {
    forall k :: k in list ==> k < |s.subs| && s.subs[k].known
  }

  ghost predicate AllShut(s: State, list: seq<nat>) {
    forall k :: k in list ==> k < |s.subs| && s.subs[k].known && Shut(s.subs[k])
  }

  ghost predicate Distinct(list: seq<nat>) {
    forall i, j :: 0 <= i < j < |list| ==> list[i] != list[j]
  }

  ghost predicate CallOk(s: State, p: nat)
    requires p < |s.calls|
  {
    (s.lock == Some(p) <==> InStop(s.calls[p])) &&
    match s.calls[p]
    case Subscribing(k, _) =>
      k < |s.subs| && s.subs[k].owner == p && !s.subs[k].known && !s.subs[k].closed
    case Delivering(t, list, i) => i <= |list| && AllLive(s, list)
    case AtSelect(t, list, i, open) =>
      i < |list| && AllLive(s, list) && Reads(s, list[i], p, t) && (open <==> !s.subs[list[i]].chanClosed)
    case Posted(t, list) => AllLive(s, list)
    case Unsubscribing(k) => k < |s.subs| && s.subs[k].known
    case Closing(done, todo, stop) => AllShut(s, done) && AllKnown(s, todo) && (stop ==> CoversLists(s, done, todo))
    case Draining(done, todo, stop) =>
      AllShut(s, done) && AllKnown(s, todo) && (stop ==> CoversLists(s, done, todo)) && todo != [] && Drains(s, todo[0], p)
    case Finished(done, stop) => AllShut(s, done) && (stop ==> s.stopped)
    case _ => true
  }

  /** Stop has closed, or still has before it, everything that is listed. */
  ghost predicate CoversLists(s: State, done: seq<nat>, todo: seq<nat>) {
    forall k :: IsListed(s.subm, k) ==> k in done || k in todo
  }

  ghost predicate Reads(s: State, k: nat, p: nat, time: nat) {
    k < |s.subs| && p in s.subs[k].readers && s.subs[k].created <= time
  }

  ghost predicate Drains(s: State, k: nat, p: nat) {
    k < |s.subs| && s.subs[k].closeMu == Some(p) && s.subs[k].closing
  }

  ghost predicate MuxOk(s: State) {
    && (forall t :: t in s.subm ==> AllLive(s, s.subm[t]) && Distinct(s.subm[t]))
    && (s.stopped ==> s.subm == map[])
    && (s.lock.Some? ==> s.lock.value < |s.calls|)
  }

  predicate InStop(c: Call) {
    (c.Closing? || c.Draining?) && c.stop
  }

  ghost predicate Inv(s: State) {
    && !s.panicked && MuxOk(s)
    && (forall k: nat :: k < |s.subs| ==> SubOk(s, k) && (s.subs[k].given ==> s.subs[k].known))
    && (forall p: nat :: p < |s.calls| ==> CallOk(s, p))
  }
}
