/**
 What holds in every state that any interleaving of Subscribe, Post, Unsubscribe and Stop reaches.
 */
module TypeMuxRuns {
  import opened Wrappers
  import opened TypeMux
  import opened TypeMuxInvariant

  ghost predicate CanRun(s: State, es: seq<Step>)
    decreases |es|
  {
    es == [] || (Enabled(s, es[0]) && CanRun(Next(s, es[0]), es[1..]))
  }

  ghost function Run(s: State, es: seq<Step>): State
    requires CanRun(s, es)
    decreases |es|
  {
    if es == [] then s else Run(Next(s, es[0]), es[1..])
  }

  lemma {:induction false} RunKeeps(s: State, es: seq<Step>)
    requires Inv(s) && CanRun(s, es)
    ensures Inv(Run(s, es))
    decreases |es|
  {
    hide Inv, Next, Enabled;
    if es != [] {
      StepKeeps(s, es[0]);
      RunKeeps(Next(s, es[0]), es[1..]);
    }
  }

  /** No run sends on a closed channel, closes a channel twice, or closes a nil channel. */
  lemma NoChannelPanic(es: seq<Step>)
    requires CanRun(Init(), es)
    ensures !Run(Init(), es).panicked
  {
    InitInv();
    RunKeeps(Init(), es);
  }

  // ---------- after closewait ----------

  /** The deliveries to one subscription. */
  function To(log: seq<Delivery>, k: nat): seq<Delivery> {
    if log == [] then []
    else if log[|log| - 1].sub == k then To(log[..|log| - 1], k) + [log[|log| - 1]]
    else To(log[..|log| - 1], k)
  }

  lemma ShutStays(s: State, e: Step, k: nat)
    requires Inv(s) && Enabled(s, e) && k < |s.subs| && s.subs[k].known && Shut(s.subs[k])
    ensures StillShut(s, Next(s, e), k)
  {
    assert SubOk(s, k);
    match e {
      case Send(p) => ShutAtSend(s, p, k);
      case EndClose(p) => ShutAtEndClose(s, p, k);
      case Enter(p) => ShutAtEnter(s, p, k);
      case BeginClose(p) =>
      case _ =>
    }
  }

  ghost predicate StillShut(s: State, r: State, k: nat) {
    k < |r.subs| && r.subs[k].known && Shut(r.subs[k]) && To(r.log, k) == To(s.log, k)
  }

  lemma ShutAtSend(s: State, p: nat, k: nat)
    requires Inv(s) && Enabled(s, Send(p)) && k < |s.subs| && s.subs[k].known && Shut(s.subs[k])
    ensures StillShut(s, Next(s, Send(p)), k)
  {
    hide MuxOk, InStop, CoversLists;
    var r := Next(s, Send(p));
    assert SubOk(s, k);
    assert CallOk(s, p) && Live(s, s.calls[p].list[s.calls[p].i]);
    assert r.log[..|s.log|] == s.log;
  }

  lemma ShutAtEndClose(s: State, p: nat, k: nat)
    requires Inv(s) && Enabled(s, EndClose(p)) && k < |s.subs| && s.subs[k].known && Shut(s.subs[k])
    ensures StillShut(s, Next(s, EndClose(p)), k)
  {
    hide MuxOk, InStop, CoversLists;
    assert CallOk(s, p);
  }

  lemma ShutAtEnter(s: State, p: nat, k: nat)
    requires Inv(s) && Enabled(s, Enter(p)) && k < |s.subs| && s.subs[k].known && Shut(s.subs[k])
    ensures StillShut(s, Next(s, Enter(p)), k)
  {
    hide MuxOk, InStop, CoversLists, Register;
    assert CallOk(s, p);
  }

  /** Once a subscription is shut, nothing reaches it in the rest of any run. */
  lemma {:induction false} SilentOnceShut(s: State, es: seq<Step>, k: nat)
    requires Inv(s) && CanRun(s, es) && k < |s.subs| && s.subs[k].known && Shut(s.subs[k])
    ensures To(Run(s, es).log, k) == To(s.log, k)
    decreases |es|
  {
    hide Inv, Next, Enabled, Shut, To;
    if es != [] {
      StepKeeps(s, es[0]);
      ShutStays(s, es[0], k);
      SilentOnceShut(Next(s, es[0]), es[1..], k);
    }
  }

  /** The closewait calls that have returned to call p. */
  function ClosewaitReturned(c: Call): seq<nat> {
    if c.Closing? || c.Draining? || c.Finished? then c.done else []
  }

  /**
   Once a closewait has returned, to Unsubscribe or to Stop, no event reaches that subscription,
   even from a Post that had it in its snapshot or was already in deliver.
   */
  lemma SilentAfterClosewait(before: seq<Step>, after: seq<Step>, p: nat, k: nat)
    requires CanRun(Init(), before) && CanRun(Run(Init(), before), after)
    requires p < |Run(Init(), before).calls| && k in ClosewaitReturned(Run(Init(), before).calls[p])
    ensures To(Run(Run(Init(), before), after).log, k) == To(Run(Init(), before).log, k)
  {
    hide Run, CanRun, To, Next, Enabled;
    var s := Run(Init(), before);
    InitInv();
    RunKeeps(Init(), before);
    assert CallOk(s, p);
    SilentOnceShut(s, after, k);
  }

  /** And its event channel is closed, so that a receiver is told. */
  lemma ClosewaitCloses(es: seq<Step>, p: nat, k: nat)
    requires CanRun(Init(), es)
    requires p < |Run(Init(), es).calls| && k in ClosewaitReturned(Run(Init(), es).calls[p])
    ensures var s := Run(Init(), es); k < |s.subs| && s.subs[k].closed && s.subs[k].chanClosed
  {
    hide Run, CanRun;
    InitInv();
    RunKeeps(Init(), es);
    var s := Run(Init(), es);
    assert CallOk(s, p) && SubOk(s, k);
  }

  // ---------- after Stop ----------

  /** When Stop is about to return, every subscription still listed is shut. */
  lemma StopShutsListed(s: State, p: nat, k: nat)
    requires Inv(s) && Enabled(s, Finish(p)) && s.calls[p].stop && IsListed(s.subm, k)
    ensures k < |s.subs| && s.subs[k].known && Shut(s.subs[k])
  {
    assert CallOk(s, p);
    assert k in s.calls[p].done;
  }

  /** So whatever was registered when Stop returns hears nothing in the rest of any run. */
  lemma SilentAfterStop(before: seq<Step>, p: nat, after: seq<Step>, k: nat)
    requires CanRun(Init(), before) && Enabled(Run(Init(), before), Finish(p)) && Run(Init(), before).calls[p].stop
    requires CanRun(Run(Init(), before), after) && IsListed(Run(Init(), before).subm, k)
    ensures To(Run(Run(Init(), before), after).log, k) == To(Run(Init(), before).log, k)
  {
    hide Run, CanRun, To, Next, Enabled;
    var s := Run(Init(), before);
    InitInv();
    RunKeeps(Init(), before);
    StopShutsListed(s, p, k);
    SilentOnceShut(s, after, k);
  }

  /** Of the calls from n on, no Post has got past its check and every new subscription is closed. */
  ghost predicate Refused(s: State, n: nat) {
    forall p: nat :: n <= p < |s.calls| ==> CallRefused(s, s.calls[p])
  }

  ghost predicate CallRefused(s: State, c: Call) {
    && !c.Delivering? && !c.AtSelect? && !c.Posted?
    && (c.Subscribed? ==> c.sub < |s.subs| && s.subs[c.sub].known && BornClosed(s.subs[c.sub]))
  }

  lemma RefusedKeeps(s: State, e: Step, n: nat)
    requires Inv(s) && s.stopped && Refused(s, n) && Enabled(s, e)
    ensures Next(s, e).stopped && Refused(Next(s, e), n)
  {
    hide Register;
    var r := Next(s, e);
    forall p: nat | n <= p < |r.calls|
      ensures CallRefused(r, r.calls[p])
    {
      if p < |s.calls| {
        assert CallRefused(s, s.calls[p]);
        assert CallOk(s, p);
      }
    }
  }

  lemma {:induction false} RefusedRun(s: State, es: seq<Step>, n: nat)
    requires Inv(s) && s.stopped && Refused(s, n) && CanRun(s, es)
    ensures Refused(Run(s, es), n)
    decreases |es|
  {
    hide Inv, Next, Enabled, Refused;
    if es != [] {
      StepKeeps(s, es[0]);
      RefusedKeeps(s, es[0], n);
      RefusedRun(Next(s, es[0]), es[1..], n);
    }
  }

  /**
   After a Stop has returned, every call of Post made later fails with ErrMuxClosed or has not got
   so far, and every later Subscribe gives a subscription that is closed already.
   */
  lemma ClosedAfterStop(before: seq<Step>, p: nat, after: seq<Step>)
    requires CanRun(Init(), before) && p < |Run(Init(), before).calls|
    requires Run(Init(), before).calls[p].Finished? && Run(Init(), before).calls[p].stop
    requires CanRun(Run(Init(), before), after)
    ensures Refused(Run(Run(Init(), before), after), |Run(Init(), before).calls|)
  {
    hide Run, CanRun, Next, Enabled;
    var s := Run(Init(), before);
    InitInv();
    RunKeeps(Init(), before);
    assert CallOk(s, p);
    RefusedRun(s, after, |s.calls|);
  }

  // ---------- what one Post delivers ----------

  /** How often call p delivered to k. */
  function Count(log: seq<Delivery>, p: nat, k: nat): nat {
    if log == [] then 0
    else
      var d := log[|log| - 1];
      Count(log[..|log| - 1], p, k) + (if d.call == p && d.sub == k then 1 else 0)
  }

  /** Delivered once, or not at all for a reason: newer than the event, or closing. */
  ghost predicate Heard(s: State, p: nat, time: nat, k: nat) {
    k < |s.subs|
    && if Count(s.log, p, k) == 0 then s.subs[k].created > time || s.subs[k].closing
       else Count(s.log, p, k) == 1 && s.subs[k].created <= time
  }

  ghost predicate Served(s: State, p: nat, time: nat, list: seq<nat>, n: nat) {
    && Distinct(list) && n <= |list|
    && (forall j :: 0 <= j < n ==> Heard(s, p, time, list[j]))
    && (forall k: nat :: k !in list[..n] ==> Count(s.log, p, k) == 0)
  }

  ghost predicate LogOf(s: State, p: nat) {
    if p >= |s.calls| then forall k: nat :: Count(s.log, p, k) == 0
    else match s.calls[p]
      case Delivering(t, list, i) => Served(s, p, t, list, i)
      case AtSelect(t, list, i, _) => Served(s, p, t, list, i)
      case Posted(t, list) => Served(s, p, t, list, |list|)
      case _ => forall k: nat :: Count(s.log, p, k) == 0
  }

  ghost predicate LogOk(s: State) {
    forall p: nat :: LogOf(s, p)
  }

  /** Subscriptions keep their time, and a closed closing channel stays closed. */
  ghost predicate Later(s: State, r: State) {
    |s.subs| <= |r.subs| && forall k: nat :: k < |s.subs| ==>
      r.subs[k].created == s.subs[k].created && (s.subs[k].closing ==> r.subs[k].closing)
  }

  lemma ServedLater(s: State, r: State, p: nat, time: nat, list: seq<nat>, n: nat)
    requires Served(s, p, time, list, n) && Later(s, r)
    requires forall k: nat :: Count(r.log, p, k) == Count(s.log, p, k)
    ensures Served(r, p, time, list, n)
  {
  }

  lemma LogOfLater(s: State, r: State, p: nat)
    requires LogOf(s, p) && Later(s, r) && (forall k: nat :: Count(r.log, p, k) == Count(s.log, p, k))
    requires p < |s.calls| ==> p < |r.calls| && r.calls[p] == s.calls[p]
    requires |s.calls| <= p < |r.calls| ==>
               !r.calls[p].Delivering? && !r.calls[p].AtSelect? && !r.calls[p].Posted?
    ensures LogOf(r, p)
  {
  }

  /** The call whose step it is, if it is one call's. */
  function Actor(e: Step): Option<nat> {
    match e
    case Enter(p) => Some(p)
    case ReadSubs(p) => Some(p)
    case BeginDeliver(p) => Some(p)
    case Send(p) => Some(p)
    case Skip(p) => Some(p)
    case EndPost(p) => Some(p)
    case Del(p) => Some(p)
    case StopLock(p, _) => Some(p)
    case BeginClose(p) => Some(p)
    case EndClose(p) => Some(p)
    case Finish(p) => Some(p)
    case _ => None
  }

  lemma NextLater(s: State, e: Step)
    requires Enabled(s, e)
    ensures Later(s, Next(s, e)) && |s.calls| <= |Next(s, e).calls|
    ensures forall p: nat :: p < |s.calls| && Actor(e) != Some(p) ==> Next(s, e).calls[p] == s.calls[p]
    ensures forall p: nat :: |s.calls| <= p < |Next(s, e).calls| ==>
              var c := Next(s, e).calls[p]; !c.Delivering? && !c.AtSelect? && !c.Posted?
    ensures !e.Send? ==> Next(s, e).log == s.log
  {
  }

  lemma CountAppend(log: seq<Delivery>, d: Delivery, p: nat, k: nat)
    ensures Count(log + [d], p, k) == Count(log, p, k) + (if d.call == p && d.sub == k then 1 else 0)
  {
  }

  /** The call that moves is a Post that goes on to the next place of its list. */
  lemma OneMore(s: State, r: State, p: nat, time: nat, list: seq<nat>, i: nat)
    requires Served(s, p, time, list, i) && Later(s, r) && i < |list|
    requires forall k: nat :: k != list[i] ==> Count(r.log, p, k) == Count(s.log, p, k)
    requires Heard(r, p, time, list[i])
    ensures Served(r, p, time, list, i + 1)
  {
  }

  lemma ActorLogKeeps(s: State, e: Step, p: nat)
    requires Inv(s) && LogOk(s) && Enabled(s, e) && Actor(e) == Some(p)
    ensures LogOf(Next(s, e), p)
  {
    hide Count, Register, Served;
    var r := Next(s, e);
    NextLater(s, e);
    assert LogOf(s, p) && CallOk(s, p);
    match e {
      case ReadSubs(_) => SnapshotServed(s, p);
      case BeginDeliver(_) => BeginServed(s, p);
      case Send(_) => SendServed(s, p);
      case Skip(_) => SkipServed(s, p);
      case EndPost(_) =>
        var c := s.calls[p];
        ServedLater(s, r, p, c.time, c.list, c.i);
      case _ =>
    }
  }

  /** A list just read has no repeats, and nothing of it has been served. */
  lemma SnapshotServed(s: State, p: nat)
    requires Inv(s) && LogOk(s) && Enabled(s, ReadSubs(p))
    ensures LogOf(Next(s, ReadSubs(p)), p)
  {
    hide Count;
    var t := s.calls[p].typ;
    assert LogOf(s, p);
    assert t in s.subm ==> Distinct(s.subm[t]);
    assert Listed(s.subm, t)[..0] == [];
  }

  lemma BeginServed(s: State, p: nat)
    requires Inv(s) && LogOk(s) && Enabled(s, BeginDeliver(p))
    ensures LogOf(Next(s, BeginDeliver(p)), p)
  {
    hide Count;
    var c, r := s.calls[p], Next(s, BeginDeliver(p));
    var k := c.list[c.i];
    assert LogOf(s, p);
    assert k !in c.list[..c.i];
    if s.subs[k].created > c.time {
      OneMore(s, r, p, c.time, c.list, c.i);
    } else {
      ServedLater(s, r, p, c.time, c.list, c.i);
    }
  }

  lemma SendServed(s: State, p: nat)
    requires Inv(s) && LogOk(s) && Enabled(s, Send(p))
    ensures LogOf(Next(s, Send(p)), p)
  {
    hide Count;
    var c, r := s.calls[p], Next(s, Send(p));
    var k := c.list[c.i];
    assert LogOf(s, p) && CallOk(s, p);
    assert k !in c.list[..c.i];
    forall j: nat
      ensures Count(r.log, p, j) == Count(s.log, p, j) + (if j == k then 1 else 0)
    {
      CountAppend(s.log, Delivery(p, k, c.time), p, j);
    }
    OneMore(s, r, p, c.time, c.list, c.i);
  }

  lemma SkipServed(s: State, p: nat)
    requires Inv(s) && LogOk(s) && Enabled(s, Skip(p))
    ensures LogOf(Next(s, Skip(p)), p)
  {
    hide Count;
    var c, r := s.calls[p], Next(s, Skip(p));
    assert LogOf(s, p) && CallOk(s, p);
    assert c.list[c.i] !in c.list[..c.i];
    OneMore(s, r, p, c.time, c.list, c.i);
  }

  lemma LogKeeps(s: State, e: Step)
    requires Inv(s) && LogOk(s) && Enabled(s, e)
    ensures LogOk(Next(s, e))
  {
    hide LogOf, Count, Inv, Next, Enabled;
    var r := Next(s, e);
    NextLater(s, e);
    forall p: nat
      ensures LogOf(r, p)
    {
      if Actor(e) == Some(p) {
        ActorLogKeeps(s, e, p);
      } else {
        OthersCount(s, e, p);
        LogOfLater(s, r, p);
      }
    }
  }

  lemma OthersCount(s: State, e: Step, p: nat)
    requires Enabled(s, e) && Actor(e) != Some(p)
    ensures forall k: nat :: Count(Next(s, e).log, p, k) == Count(s.log, p, k)
  {
  }

  lemma {:induction false} RunKeepsLog(s: State, es: seq<Step>)
    requires Inv(s) && LogOk(s) && CanRun(s, es)
    ensures LogOk(Run(s, es))
    decreases |es|
  {
    hide Inv, LogOk, Next, Enabled;
    if es != [] {
      StepKeeps(s, es[0]);
      LogKeeps(s, es[0]);
      RunKeepsLog(Next(s, es[0]), es[1..]);
    }
  }

  /**
   A Post that returned delivered its event exactly once to each subscription of its snapshot,
   except those created after the event and those closed meanwhile, and to no other.
   */
  lemma PostDeliversOnce(es: seq<Step>, p: nat)
    requires CanRun(Init(), es)
    requires p < |Run(Init(), es).calls| && Run(Init(), es).calls[p].Posted?
    ensures var s := Run(Init(), es); var c := s.calls[p];
            && (forall k :: k in c.list ==> Heard(s, p, c.time, k))
            && (forall k: nat :: k !in c.list ==> Count(s.log, p, k) == 0)
  {
    hide Run, CanRun, Count, Heard;
    InitInv();
    EmptyLog();
    RunKeepsLog(Init(), es);
    var s := Run(Init(), es);
    assert LogOf(s, p);
    assert s.calls[p].list[..|s.calls[p].list|] == s.calls[p].list;
  }

  lemma EmptyLog()
    ensures LogOk(Init())
  {
  }

  // ---------- progress ----------

  /** Steps that wait for no receiver and start no call. */
  ghost predicate Internal(e: Step) {
    Actor(e) != None && !e.Send?
  }

  /** Neither over nor waiting for a receiver. */
  predicate Underway(c: Call) {
    c.Subscribing? || c.Posting? || c.Delivering? || c.Unsubscribing? || c.StopCalled? || c.Closing? || c.Draining?
  }

  /** A call that wants the mux's mutex for writing. */
  predicate WantsLock(c: Call) {
    c.Subscribing? || c.Unsubscribing? || c.StopCalled?
  }

  ghost predicate WriterWaits(s: State) {
    exists q :: 0 <= q < |s.calls| && WantsLock(s.calls[q])
  }

  /** Go's RWMutex refuses a new reader while a writer waits: at mutex, and at postMu while closewait drains. */
  ghost predicate HeldBack(s: State, e: Step)
    requires Enabled(s, e)
  {
    match e
    case ReadSubs(_) => WriterWaits(s)
    case BeginDeliver(p) =>
      var k := s.calls[p].list[s.calls[p].i];
      s.subs[k].created <= s.calls[p].time && s.subs[k].closeMu.Some?
    case _ => false
  }

  ghost predicate Free(s: State, e: Step) {
    Enabled(s, e) && Internal(e) && !HeldBack(s, e)
  }

  ghost predicate CanMove(s: State) {
    exists e :: Free(s, e)
  }

  /** closewait never waits for a receiver: the Posts it waits for can leave by closing. */
  lemma DrainingMoves(s: State, p: nat)
    requires Inv(s) && p < |s.calls| && s.calls[p].Draining?
    ensures CanMove(s)
  {
    assert CallOk(s, p);
    var k := s.calls[p].todo[0];
    if s.subs[k].readers == {} {
      assert Free(s, EndClose(p));
    } else {
      var q :| q in s.subs[k].readers;
      assert SubOk(s, k) && ReadBy(s, k, q);
      assert Free(s, Skip(q));
    }
  }

  lemma ClosingMoves(s: State, p: nat)
    requires Inv(s) && p < |s.calls| && s.calls[p].Closing?
    ensures CanMove(s)
  {
    assert CallOk(s, p);
    if s.calls[p].todo == [] {
      assert Free(s, Finish(p));
    } else {
      var k := s.calls[p].todo[0];
      assert k in s.calls[p].todo;
      if s.subs[k].closeMu == None {
        assert Free(s, BeginClose(p));
      } else {
        var q := s.subs[k].closeMu.value;
        assert SubOk(s, k) && DrainedBy(s, k, q);
        DrainingMoves(s, q);
      }
    }
  }

  /** Some order in which the map can be walked. */
  lemma {:induction false} WalkOf(subm: map<Type, seq<nat>>) returns (order: seq<nat>)
    ensures forall k :: k in order <==> IsListed(subm, k)
    decreases |subm|
  {
    if subm == map[] {
      order := [];
    } else {
      var t :| t in subm;
      var rest := subm - {t};
      assert subm.Keys == rest.Keys + {t};
      var more := WalkOf(rest);
      order := subm[t] + more;
      forall k
        ensures k in order <==> IsListed(subm, k)
      {
        if k in more {
          var u :| u in rest && k in rest[u];
          assert k in subm[u];
        }
      }
    }
  }

  /**
   In no reachable state is everybody stuck: while a call is underway, some step can be taken that
   does not depend on a receiver and is no reader's that has to let a writer go first, so Subscribe,
   Unsubscribe and Stop never wait for a receiver.
   */
  lemma NeverStuck(es: seq<Step>, p: nat)
    requires CanRun(Init(), es)
    requires p < |Run(Init(), es).calls| && Underway(Run(Init(), es).calls[p])
    ensures CanMove(Run(Init(), es))
  {
    hide Run, CanRun;
    InitInv();
    RunKeeps(Init(), es);
    var s := Run(Init(), es);
    assert CallOk(s, p);
    match s.calls[p] {
      case Delivering(t, list, i) =>
        if i == |list| {
          assert Free(s, EndPost(p));
        } else {
          var k := list[i];
          assert Live(s, k) && SubOk(s, k);
          assert Enabled(s, BeginDeliver(p));
          if s.subs[k].closeMu.Some? {
            DrainingMoves(s, s.subs[k].closeMu.value);
          } else {
            assert Free(s, BeginDeliver(p));
          }
        }
      case Draining(_, _, _) => DrainingMoves(s, p);
      case Closing(_, _, _) => ClosingMoves(s, p);
      case _ => LockMoves(s, p);
    }
  }

  /** A Post in its select waits for the receiver only, and not even for that once closing is closed. */
  lemma SelectWaitsForReceiver(es: seq<Step>, p: nat)
    requires CanRun(Init(), es)
    requires p < |Run(Init(), es).calls| && Run(Init(), es).calls[p].AtSelect?
    ensures var s := Run(Init(), es); Enabled(s, Send(p)) || Enabled(s, Skip(p))
    ensures var s := Run(Init(), es); var c := s.calls[p];
            c.i < |c.list| && c.list[c.i] < |s.subs|
            && (Enabled(s, Skip(p)) <==> s.subs[c.list[c.i]].closed)
            && (Enabled(s, Send(p)) <==> !s.subs[c.list[c.i]].chanClosed)
  {
    hide Run, CanRun;
    InitInv();
    RunKeeps(Init(), es);
    var s := Run(Init(), es);
    assert CallOk(s, p) && SubOk(s, s.calls[p].list[s.calls[p].i]);
  }

  lemma LockMoves(s: State, p: nat)
    requires Inv(s) && p < |s.calls| && (s.calls[p].Posting? || WantsLock(s.calls[p]))
    ensures CanMove(s)
  {
    assert CallOk(s, p);
    if s.lock.Some? {
      var q := s.lock.value;
      assert CallOk(s, q);
      if s.calls[q].Draining? {
        DrainingMoves(s, q);
      } else {
        ClosingMoves(s, q);
      }
    } else if WriterWaits(s) {
      var q: nat :| q < |s.calls| && WantsLock(s.calls[q]);
      WriterMoves(s, q);
    } else {
      assert s.calls[p].Posting?;
      assert Free(s, ReadSubs(p));
    }
  }

  lemma WriterMoves(s: State, p: nat)
    requires Inv(s) && p < |s.calls| && WantsLock(s.calls[p]) && s.lock == None
    ensures CanMove(s)
  {
    assert CallOk(s, p);
    match s.calls[p] {
      case Subscribing(_, _) => assert Free(s, Enter(p));
      case Unsubscribing(_) => assert Free(s, Del(p));
      case StopCalled =>
        var order := WalkOf(s.subm);
        assert Free(s, StopLock(p, order));
    }
  }

  // ---------- Subscribe and del ----------

  /** Subscribe panics exactly when one of its types comes twice. */
  lemma {:induction false} RegisterOkIff(subm: map<Type, seq<nat>>, types: seq<Type>, sub: nat)
    requires forall t :: t in types ==> sub !in Listed(subm, t)
    ensures Register(subm, types, sub).1 <==> Distinct(types)
    decreases |types|
  {
    if types != [] {
      var t := types[0];
      var more := subm[t := Listed(subm, t) + [sub]];
      if t in types[1..] {
        var j :| 1 <= j < |types| && types[j] == t;
        RegisterAgain(more, types[1..], sub, j - 1);
      } else {
        forall u | u in types[1..]
          ensures sub !in Listed(more, u)
        {
          assert u in types && u != t;
        }
        RegisterOkIff(more, types[1..], sub);
        assert Distinct(types) <==> Distinct(types[1..]) by {
          DistinctTail(types);
        }
      }
    }
  }

  lemma DistinctTail(types: seq<nat>)
    requires types != [] && types[0] !in types[1..]
    ensures Distinct(types) <==> Distinct(types[1..])
  {
  }

  lemma {:induction false} RegisterAgain(subm: map<Type, seq<nat>>, types: seq<Type>, sub: nat, j: nat)
    requires j < |types| && sub in Listed(subm, types[j])
    ensures !Register(subm, types, sub).1
    decreases |types|
  {
    if j > 0 && sub !in Listed(subm, types[0]) {
      RegisterAgain(subm[types[0] := Listed(subm, types[0]) + [sub]], types[1..], sub, j - 1);
    }
  }

  /** del leaves the subscription in no list and every other one where it was. */
  lemma UnlistRemoves(subm: map<Type, seq<nat>>, sub: nat)
    requires forall t :: t in subm ==> Distinct(subm[t])
    ensures forall t, k :: k in Listed(Unlist(subm, sub), t) <==> k in Listed(subm, t) && k != sub
  {
  }
}
