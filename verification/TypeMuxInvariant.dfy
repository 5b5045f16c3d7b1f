/** Every step of TypeMux keeps its invariant. */
module TypeMuxInvariant {
  import opened Wrappers
  import opened TypeMux

  /** What no step of call p does to a subscription behind the back of the other calls. */
  ghost predicate KeptSub(x: Subscription, y: Subscription, p: nat) {
    && y.created == x.created && y.owner == x.owner
    && (x.known ==> y.known) && (x.closing ==> y.closing)
    && (x.known && !BornClosed(x) ==> !BornClosed(y))
    && (x.known && Shut(x) ==> Shut(y))
    && (x.owner != p && !x.known ==> y == x)
    && (x.chanClosed ==> y.chanClosed) && (y.chanClosed && !x.chanClosed ==> x.readers == {})
    && (forall q :: q != p ==> (q in x.readers <==> q in y.readers))
    && (forall q :: q != p ==> (x.closeMu == Some(q) <==> y.closeMu == Some(q)))
  }

  ghost predicate Kept(s: State, r: State, p: nat) {
    && |s.subs| <= |r.subs| && |s.calls| <= |r.calls|
    && (forall k: nat :: k < |s.subs| ==> KeptSub(s.subs[k], r.subs[k], p))
    && (forall q: nat :: q < |s.calls| && q != p ==> r.calls[q] == s.calls[q])
    && (forall q: nat :: q != p ==> (s.lock == Some(q) <==> r.lock == Some(q)))
    && (s.stopped ==> r.stopped)
    && (s.lock.Some? && s.lock.value != p ==> r.subm == s.subm)
  }

  lemma LiveKept(s: State, r: State, p: nat, list: seq<nat>)
    requires Kept(s, r, p)
    ensures AllLive(s, list) ==> AllLive(r, list)
    ensures AllKnown(s, list) ==> AllKnown(r, list)
    ensures AllShut(s, list) ==> AllShut(r, list)
  {
  }

  lemma CallKept(s: State, r: State, p: nat, q: nat)
    requires Kept(s, r, p) && q < |s.calls| && q != p && CallOk(s, q)
    ensures CallOk(r, q)
  {
  }

  /** Call p does not hold a lock of a subscription other than k0. */
  ghost predicate HoldsOnly(s: State, p: nat, k0: nat) {
    p < |s.calls| ==>
      && (s.calls[p].Draining? ==> s.calls[p].todo != [] && s.calls[p].todo[0] == k0)
      && (s.calls[p].AtSelect? ==> s.calls[p].i < |s.calls[p].list| && s.calls[p].list[s.calls[p].i] == k0)
  }

  lemma SubKept(s: State, r: State, p: nat, k0: nat, k: nat)
    requires Kept(s, r, p) && HoldsOnly(s, p, k0)
    requires k < |s.subs| && k != k0 && r.subs[k] == s.subs[k] && SubOk(s, k)
    ensures SubOk(r, k)
  {
  }

  ghost predicate SameLists(s: State, r: State) {
    r.subm == s.subm && r.stopped == s.stopped && (r.lock.Some? ==> r.lock == s.lock || r.lock.value < |r.calls|)
  }

  lemma MuxKept(s: State, r: State, p: nat)
    requires Kept(s, r, p) && MuxOk(s) && SameLists(s, r)
    ensures MuxOk(r)
  {
  }

  /** A step of call p that changes at most subscription k0: what is left to show of it. */
  lemma StepOf(s: State, r: State, p: nat, k0: nat)
    requires Inv(s) && Kept(s, r, p) && HoldsOnly(s, p, k0) && MuxOk(r) && !r.panicked
    requires |r.subs| == |s.subs| && forall k: nat :: k < |s.subs| && k != k0 ==> r.subs[k] == s.subs[k]
    requires k0 < |r.subs| ==> SubOk(r, k0) && (r.subs[k0].given ==> r.subs[k0].known)
    requires forall q: nat :: |s.calls| <= q < |r.calls| || q == p < |r.calls| ==> CallOk(r, q)
    ensures Inv(r)
  {
    hide SubOk, CallOk, MuxOk, KeptSub;
    forall k: nat | k < |r.subs|
      ensures SubOk(r, k) && (r.subs[k].given ==> r.subs[k].known)
    {
      if k != k0 {
        SubKept(s, r, p, k0, k);
      }
    }
    forall q: nat | q < |r.calls|
      ensures CallOk(r, q)
    {
      if q < |s.calls| && q != p {
        CallKept(s, r, p, q);
      }
    }
  }

  // ---------- the steps ----------

  lemma InitInv()
    ensures Inv(Init())
  {
  }

  lemma TickKeeps(s: State)
    requires Inv(s)
    ensures Inv(Next(s, Tick))
  {
    var r, n := Next(s, Tick), |s.calls|;
    MuxKept(s, r, n);
    StepOf(s, r, n, |s.subs|);
  }

  /** A new call that refers to nothing yet. */
  lemma NewCallKeeps(s: State, c: Call)
    requires Inv(s) && (c.Posting? || c.StopCalled? || (c.Unsubscribing? && c.sub < |s.subs| && s.subs[c.sub].known))
    ensures Inv(s.(calls := s.calls + [c]))
  {
    var r, n := s.(calls := s.calls + [c]), |s.calls|;
    MuxKept(s, r, n);
    StepOf(s, r, n, |s.subs|);
  }

  lemma NewSubKeeps(s: State, types: seq<Type>)
    requires Inv(s)
    ensures Inv(Next(s, NewSub(types)))
  {
    var r, n := Next(s, NewSub(types)), |s.calls|;
    assert Kept(s, r, n);
    MuxKept(s, r, n);
    forall k: nat | k < |s.subs|
      ensures SubOk(r, k)
    {
      SubKept(s, r, n, |s.subs|, k);
    }
    assert SubOk(r, |s.subs|);
    forall q: nat | q < |r.calls|
      ensures CallOk(r, q)
    {
      if q < n {
        CallKept(s, r, n, q);
      }
    }
  }

  lemma ReadSubsKeeps(s: State, p: nat)
    requires Inv(s) && Enabled(s, ReadSubs(p))
    ensures Inv(Next(s, ReadSubs(p)))
  {
    var r := Next(s, ReadSubs(p));
    assert Kept(s, r, p);
    MuxKept(s, r, p);
    assert CallOk(s, p);
    assert CallOk(r, p);
    StepOf(s, r, p, |s.subs|);
  }

  lemma BeginDeliverKeeps(s: State, p: nat)
    requires Inv(s) && Enabled(s, BeginDeliver(p))
    ensures Inv(Next(s, BeginDeliver(p)))
  {
    var c, r := s.calls[p], Next(s, BeginDeliver(p));
    var k := c.list[c.i];
    assert CallOk(s, p) && SubOk(s, k) && Live(s, k);
    assert KeptSub(s.subs[k], r.subs[k], p);
    assert Kept(s, r, p);
    MuxKept(s, r, p);
    LiveKept(s, r, p, c.list);
    assert CallOk(r, p);
    assert SubOk(r, k);
    StepOf(s, r, p, k);
  }

  /** Send and Skip leave the select. */
  lemma LeaveKeeps(s: State, p: nat, log: seq<Delivery>)
    requires Inv(s) && Selecting(s, p)
    ensures var c := s.calls[p]; var k := c.list[c.i];
            Inv(SetSub(Move(s, p, Delivering(c.time, c.list, c.i + 1)), k, s.subs[k].(readers := s.subs[k].readers - {p})).(log := log))
  {
    var c := s.calls[p];
    var k := c.list[c.i];
    var r := SetSub(Move(s, p, Delivering(c.time, c.list, c.i + 1)), k, s.subs[k].(readers := s.subs[k].readers - {p})).(log := log);
    assert CallOk(s, p) && SubOk(s, k) && Live(s, k);
    assert KeptSub(s.subs[k], r.subs[k], p);
    assert Kept(s, r, p);
    MuxKept(s, r, p);
    LiveKept(s, r, p, c.list);
    assert CallOk(r, p);
    forall q | q in r.subs[k].readers
      ensures ReadBy(r, k, q)
    {
      assert ReadBy(s, k, q);
    }
    assert SubOk(r, k);
    StepOf(s, r, p, k);
  }

  /** A subscription in a list whose postC is not nil has an open channel. */
  lemma SendIsSafe(s: State, p: nat)
    requires Inv(s) && Enabled(s, Send(p))
    ensures var c := s.calls[p]; !s.subs[c.list[c.i]].chanClosed
  {
    var c := s.calls[p];
    assert CallOk(s, p) && SubOk(s, c.list[c.i]) && Live(s, c.list[c.i]);
  }

  lemma SendKeeps(s: State, p: nat)
    requires Inv(s) && Enabled(s, Send(p))
    ensures Inv(Next(s, Send(p)))
  {

    SendIsSafe(s, p);
    LeaveKeeps(s, p, Next(s, Send(p)).log);
  }

  lemma EndPostKeeps(s: State, p: nat)
    requires Inv(s) && Enabled(s, EndPost(p))
    ensures Inv(Next(s, EndPost(p)))
  {
    var r := Next(s, EndPost(p));
    assert CallOk(s, p);
    assert Kept(s, r, p);
    MuxKept(s, r, p);
    LiveKept(s, r, p, s.calls[p].list);
    StepOf(s, r, p, |s.subs|);
  }

  lemma WithoutSubset(list: seq<nat>, sub: nat)
    ensures forall k :: k in Without(list, sub) ==> k in list
    ensures Distinct(list) ==> Distinct(Without(list, sub)) && sub !in Without(list, sub)
  {
  }

  lemma DelKeeps(s: State, p: nat)
    requires Inv(s) && Enabled(s, Del(p))
    ensures Inv(Next(s, Del(p)))
  {
    var k, r := s.calls[p].sub, Next(s, Del(p));
    assert CallOk(s, p);
    assert Kept(s, r, p);
    forall t | t in r.subm
      ensures AllLive(r, r.subm[t]) && Distinct(r.subm[t])
    {
      WithoutSubset(s.subm[t], k);
      LiveKept(s, r, p, s.subm[t]);
    }
    assert CallOk(r, p);
    StepOf(s, r, p, |s.subs|);
  }

  lemma StopLockKeeps(s: State, p: nat, order: seq<nat>)
    requires Inv(s) && Enabled(s, StopLock(p, order))
    ensures Inv(Next(s, StopLock(p, order)))
  {
    var r := Next(s, StopLock(p, order));
    assert CallOk(s, p);
    assert Kept(s, r, p);
    MuxKept(s, r, p);
    forall k | k in order
      ensures Live(s, k)
    {
      assert IsListed(s.subm, k);
    }
    assert CallOk(r, p);
    StepOf(s, r, p, |s.subs|);
  }

  /** A closewait has returned: the next subscription of the list. */
  lemma NextTodo(s: State, r: State, p: nat, done: seq<nat>, todo: seq<nat>)
    requires Kept(s, r, p) && AllShut(s, done) && AllKnown(s, todo) && todo != []
    requires todo[0] < |r.subs| && Shut(r.subs[todo[0]])
    ensures AllShut(r, done + [todo[0]]) && AllKnown(r, todo[1..])
  {
    LiveKept(s, r, p, done);
    LiveKept(s, r, p, todo);
    assert forall j :: j in todo[1..] ==> j in todo;
  }

  lemma BeginCloseKeeps(s: State, p: nat)
    requires Inv(s) && Enabled(s, BeginClose(p))
    ensures Inv(Next(s, BeginClose(p)))
  {
    hide MuxOk;
    var c, r := s.calls[p], Next(s, BeginClose(p));
    var k := c.todo[0];
    assert CallOk(s, p) && SubOk(s, k) && s.subs[k].known;
    if s.subs[k].closed {
      assert Kept(s, r, p);
      NextTodo(s, r, p, c.done, c.todo);
      MuxKept(s, r, p);
      StepOf(s, r, p, |s.subs|);
    } else {
      BeginCloseOpen(s, r, p, k);
    }
  }

  lemma BeginCloseOpen(s: State, r: State, p: nat, k: nat)
    requires Inv(s) && Enabled(s, BeginClose(p)) && k == s.calls[p].todo[0] && !s.subs[k].closed
    requires r == Next(s, BeginClose(p))
    ensures Inv(r)
  {
    hide MuxOk;
    var c := s.calls[p];
    assert CallOk(s, p) && SubOk(s, k) && s.subs[k].known;
    assert KeptSub(s.subs[k], r.subs[k], p);
    assert Kept(s, r, p);
    MuxKept(s, r, p);
    LiveKept(s, r, p, c.done);
    LiveKept(s, r, p, c.todo);
    assert CallOk(r, p);
    StillRead(s, r, p, k);
    assert SubOk(r, k);
    hide SubOk, CallOk, KeptSub;
    StepOf(s, r, p, k);
  }

  lemma StillRead(s: State, r: State, p: nat, k: nat)
    requires k < |s.subs| && k < |r.subs| && SubOk(s, k) && p < |s.calls| && !s.calls[p].AtSelect?
    requires |r.calls| == |s.calls| && forall q: nat :: q < |s.calls| && q != p ==> r.calls[q] == s.calls[q]
    ensures forall q :: q in s.subs[k].readers ==> ReadBy(r, k, q)
  {
  }

  /** closewait closes each of its two channels for the first time. */
  lemma CloseIsSafe(s: State, p: nat)
    requires Inv(s)
    ensures Enabled(s, BeginClose(p)) ==> var x := s.subs[s.calls[p].todo[0]]; x.closed || !x.closing
    ensures Enabled(s, EndClose(p)) ==> var x := s.subs[s.calls[p].todo[0]]; !x.chanClosed && !x.postNil
  {
    if Enabled(s, EndClose(p)) {
      assert CallOk(s, p) && SubOk(s, s.calls[p].todo[0]);
    }
    if Enabled(s, BeginClose(p)) {
      assert SubOk(s, s.calls[p].todo[0]);
    }
  }

  lemma EndCloseKeeps(s: State, p: nat)
    requires Inv(s) && Enabled(s, EndClose(p))
    ensures Inv(Next(s, EndClose(p)))
  {
    hide MuxOk;
    var c, r := s.calls[p], Next(s, EndClose(p));
    var k := c.todo[0];
    CloseIsSafe(s, p);
    assert CallOk(s, p) && SubOk(s, k) && s.subs[k].known;
    assert KeptSub(s.subs[k], r.subs[k], p);
    assert Kept(s, r, p);
    MuxKept(s, r, p);
    NextTodo(s, r, p, c.done, c.todo);
    assert SubOk(r, k);
    hide SubOk, KeptSub;
    StepOf(s, r, p, k);
  }

  lemma FinishKeeps(s: State, p: nat)
    requires Inv(s) && Enabled(s, Finish(p))
    ensures Inv(Next(s, Finish(p)))
  {
    var c, r := s.calls[p], Next(s, Finish(p));
    assert CallOk(s, p);
    assert Kept(s, r, p);
    LiveKept(s, r, p, c.done);
    if !c.stop {
      MuxKept(s, r, p);
    }
    assert CallOk(r, p);
    StepOf(s, r, p, |s.subs|);
  }

  // ---------- Subscribe ----------

  /** Registering adds the subscription to lists that stay free of repeats, and nothing else. */
  lemma {:induction false} RegisterLists(subm: map<Type, seq<nat>>, types: seq<Type>, sub: nat)
    requires forall t :: t in subm ==> Distinct(subm[t])
    ensures var m := Register(subm, types, sub).0;
            && (forall t :: t in m ==> Distinct(m[t]))
            && (forall t, k :: t in m && k in m[t] && k != sub ==> k in Listed(subm, t))
    decreases |types|
  {
    if types != [] && sub !in Listed(subm, types[0]) {
      var more := subm[types[0] := Listed(subm, types[0]) + [sub]];
      forall t | t in more
        ensures Distinct(more[t])
      {
        if t == types[0] {
          assert Distinct(Listed(subm, t));
        }
      }
      RegisterLists(more, types[1..], sub);
      assert Register(subm, types, sub) == Register(more, types[1..], sub);
    } else {
      assert Register(subm, types, sub).0 == subm;
    }
  }

  lemma EnterKeeps(s: State, p: nat)
    requires Inv(s) && Enabled(s, Enter(p))
    ensures Inv(Next(s, Enter(p)))
  {
    hide Register;
    var c, r := s.calls[p], Next(s, Enter(p));
    var k := c.sub;
    assert CallOk(s, p) && SubOk(s, k);
    assert KeptSub(s.subs[k], r.subs[k], p);
    assert Kept(s, r, p);
    if s.stopped {
      MuxKept(s, r, p);
    } else {
      RegisterLists(s.subm, c.types, k);
      forall t | t in r.subm
        ensures AllLive(r, r.subm[t]) && Distinct(r.subm[t])
      {
        LiveKept(s, r, p, Listed(s.subm, t));
      }
    }
    assert CallOk(r, p);
    assert SubOk(r, k);
    StepOf(s, r, p, k);
  }

  /** Every step, of any call. */
  lemma StepKeeps(s: State, e: Step)
    requires Inv(s) && Enabled(s, e)
    ensures Inv(Next(s, e))
  {
    match e {
      case Tick => TickKeeps(s);
      case NewSub(types) => NewSubKeeps(s, types);
      case Enter(p) => EnterKeeps(s, p);
      case NewPost(t) => NewCallKeeps(s, Posting(t, s.clock));
      case ReadSubs(p) => ReadSubsKeeps(s, p);
      case BeginDeliver(p) => BeginDeliverKeeps(s, p);
      case Send(p) => SendKeeps(s, p);
      case Skip(p) => LeaveKeeps(s, p, s.log);
      case EndPost(p) => EndPostKeeps(s, p);
      case CallUnsubscribe(k) => NewCallKeeps(s, Unsubscribing(k));
      case Del(p) => DelKeeps(s, p);
      case CallStop => NewCallKeeps(s, StopCalled);
      case StopLock(p, order) => StopLockKeeps(s, p, order);
      case BeginClose(p) => BeginCloseKeeps(s, p);
      case EndClose(p) => EndCloseKeeps(s, p);
      case Finish(p) => FinishKeeps(s, p);
    }
  }
}
