/**
 What holds in every state that any interleaving of subscribers, removals and Sends reaches.
 */
module FeedRuns {
  import opened CaseLists
  import opened FeedProtocol
  import opened FeedInvariant

  /** Each step of es is enabled when its turn comes. */
  ghost predicate CanRun(s: State, es: seq<Step>)
    decreases |es|
  {
    es == [] || (Enabled(s, es[0]) && CanRun(Next(s, es[0]), es[1..]))
  }

  ghost function Run(s: State, es: seq<Step>): State
    requires CanRun(s, es)
    decreases |es|
  {
    if es == [] then s else Run(Next(s, es[0]), es[1..])
  }

  lemma {:induction false} RunKeeps(s: State, es: seq<Step>)
    requires Inv(s) && CanRun(s, es)
    ensures Inv(Run(s, es))
    decreases |es|
  {
    hide Inv, Next, Enabled;
    if es != [] {
      StepKeeps(s, es[0]);
      RunKeeps(Next(s, es[0]), es[1..]);
    }
  }

  ghost function Reached(es: seq<Step>): State
    requires CanRun(Init(), es)
  {
    Run(Init(), es)
  }

  /** The entries of a channel in inbox and sendCases are its subscriptions not yet removed. */
  lemma EntriesAreSubscriptions(es: seq<Step>, c: Chan)
    requires CanRun(Init(), es)
    ensures var s := Reached(es);
            multiset(s.inbox)[c] + ChansOf(s.cases)[c] == Total(s.subs, Present)[c]
  {
    hide Total, Run, CanRun;
    InitInv();
    RunKeeps(Init(), es);
    var s := Reached(es);
    assert (multiset(s.inbox) + ChansOf(s.cases))[c] == Total(s.subs, Present)[c];
  }

  /** The removals that have the token, and the Sends that do. */
  ghost function SubHolders(s: State): set<nat> {
    set k: nat | k < |s.subs| && (s.subs[k].phase.Holding? || s.subs[k].phase.Yielding?)
  }

  ghost function SendHolders(s: State): set<nat> {
    set t: nat | t < |s.senders| && !s.senders[t].Calling? && !s.senders[t].Returned?
  }

  /** The token of sendLock is in the channel or with one holder: never lost, never doubled. */
  lemma TokenIsOne(es: seq<Step>)
    requires CanRun(Init(), es)
    ensures var s := Reached(es); s.tokens + |SubHolders(s)| + |SendHolders(s)| == 1
  {
    InitInv();
    RunKeeps(Init(), es);
    HoldersAreTotals(Reached(es));
  }

  lemma HoldersAreTotals(s: State)
    requires Inv(s)
    ensures s.tokens + |SubHolders(s)| + |SendHolders(s)| == 1
  {
    hide Total;
    if k: nat :| k in SubHolders(s) {
      TokenWithSub(s, k);
      assert SubHolders(s) == {k};
      assert SendHolders(s) == {};
    } else if t: nat :| t in SendHolders(s) {
      TokenWithSend(s, t);
      assert SendHolders(s) == {t};
      assert SubHolders(s) == {};
    } else {
      assert SubHolders(s) == {} && SendHolders(s) == {};
      forall k: nat | k < |s.subs|
        ensures !s.subs[k].phase.Holding? && !s.subs[k].phase.Yielding?
      {
        assert k !in SubHolders(s);
      }
      forall t: nat | t < |s.senders|
        ensures s.senders[t].Calling? || s.senders[t].Returned?
      {
        assert t !in SendHolders(s);
      }
      NobodyHolds(s.subs, s.senders);
    }
  }

  lemma NobodyHolds(subs: seq<Subscription>, senders: seq<Sender>)
    requires forall k :: 0 <= k < |subs| ==> !subs[k].phase.Holding? && !subs[k].phase.Yielding?
    requires forall t :: 0 <= t < |senders| ==> senders[t].Calling? || senders[t].Returned?
    ensures Total(subs, SubHolds)[0] == 0 && Total(senders, SendHolds)[0] == 0
    decreases |subs| + |senders|
  {
  }

  /**
   A removal that missed the inbox finds its channel in sendCases when it has the token, and so
   does the Send it was given to: find never returns -1 there, and delete gets a subscriber's place.
   */
  lemma RemovalFinds(es: seq<Step>, k: nat)
    requires CanRun(Init(), es) && k < |Reached(es).subs|
    requires Reached(es).subs[k].phase.Holding? || Reached(es).subs[k].phase.Handed?
    ensures var s := Reached(es); 1 <= Find(s.cases, s.subs[k].chan) < |s.cases|
  {
    hide Run, CanRun;
    InitInv();
    RunKeeps(Init(), es);
    MissedIsFound(Reached(es), k);
  }

  /** Putting the token back never blocks. */
  lemma ReleaseNeverBlocks(es: seq<Step>, n: nat)
    requires CanRun(Init(), es)
    ensures var s := Reached(es);
            && (SubIn(s, n, Yielding) <==> Enabled(s, GiveBack(n)))
            && (n < |s.senders| && s.senders[n].Releasing? <==> Enabled(s, Unlock(n)))
  {
    hide Run, CanRun;
    InitInv();
    RunKeeps(Init(), es);
    var s := Reached(es);
    if SubIn(s, n, Yielding) {
      TokenWithSub(s, n);
    }
    if n < |s.senders| && s.senders[n].Releasing? {
      TokenWithSend(s, n);
    }
  }

  /** The step serves the removal of k, or belongs to whoever has the token. */
  ghost predicate Helps(s: State, e: Step, k: nat) {
    match e
    case TakeToken(j) => j == k
    case HandOver(_, j) => j == k
    case DeleteHeld(_) => true
    case GiveBack(_) => true
    case Merge(_, _) => true
    case TrySend(_, _) => true
    case EndTrying(_) => true
    case DeleteHanded(_) => true
    case Unlock(_) => true
    case _ => false
  }

  /**
   A removal at its select is never stuck, whether or not any receiver ever becomes ready: the
   token is free, a Send at its select takes the channel, or the holder has a step of its own.
   */
  lemma RemovalIsNeverStuck(es: seq<Step>, k: nat)
    requires CanRun(Init(), es) && SubIn(Reached(es), k, Waiting)
    ensures exists e :: Enabled(Reached(es), e) && Helps(Reached(es), e, k)
  {
    hide Run, CanRun, Total, Next;
    InitInv();
    RunKeeps(Init(), es);
    var s := Reached(es);
    HoldersAreTotals(s);
    if s.tokens > 0 {
      assert Enabled(s, TakeToken(k));
    } else if j: nat :| j in SubHolders(s) {
      HolderMoves(s, j, k);
    } else {
      assert SubHolders(s) == {};
      var t :| t in SendHolders(s);
      SenderMoves(s, t, k);
    }
  }

  lemma HolderMoves(s: State, j: nat, k: nat)
    requires Inv(s) && j in SubHolders(s)
    ensures exists e :: Enabled(s, e) && Helps(s, e, k)
  {
    hide Total, Next;
    TokenWithSub(s, j);
    if s.subs[j].phase.Holding? {
      MissedIsFound(s, j);
      assert Enabled(s, DeleteHeld(j));
    } else {
      assert Enabled(s, GiveBack(j));
    }
  }

  lemma SenderMoves(s: State, t: nat, k: nat)
    requires Inv(s) && t in SendHolders(s) && SubIn(s, k, Waiting)
    ensures exists e :: Enabled(s, e) && Helps(s, e, k)
  {
    hide Total, Next;
    TokenWithSend(s, t);
    assert SenderFits(s, s.senders[t]);
    match s.senders[t] {
      case Merging =>
        assert Enabled(s, Merge(t, true));
      case Trying(i, m, log) =>
        assert if i < m then Enabled(s, TrySend(t, false)) else Enabled(s, EndTrying(t));
      case Selecting(m, log) =>
        assert Enabled(s, HandOver(t, k));
      case Deleting(j, m, log) =>
        MissedIsFound(s, j);
        assert Enabled(s, DeleteHanded(t));
      case Releasing(log) =>
        assert Enabled(s, Unlock(t));
    }
  }

  // ---------- what one Send was handed ----------

  /** The channel that a step hands to Send t on removeSub. */
  ghost function Got(s: State, e: Step, t: nat): multiset<Chan>
    requires Enabled(s, e)
  {
    match e
    case HandOver(u, k) => if u == t then multiset{s.subs[k].chan} else multiset{}
    case _ => multiset{}
  }

  /** The channels that the run hands to Send t. */
  ghost function Received(s: State, es: seq<Step>, t: nat): multiset<Chan>
    requires CanRun(s, es)
    decreases |es|
  {
    if es == [] then multiset{} else Got(s, es[0], t) + Received(Next(s, es[0]), es[1..], t)
  }

  /** The channels that Send t has thrown out, or is about to. */
  ghost function ThrownOut(s: State, t: nat): multiset<Chan> {
    if t >= |s.senders| then multiset{}
    else match s.senders[t]
      case Calling => multiset{}
      case Merging => multiset{}
      case Trying(_, _, log) => log.dropped + log.late
      case Selecting(_, log) => log.dropped + log.late
      case Deleting(k, _, log) => log.dropped + log.late + if k < |s.subs| then multiset{s.subs[k].chan} else multiset{}
      case Releasing(log) => log.dropped + log.late
      case Returned(log) => log.dropped + log.late
  }

  /** The Send that takes the step, if any. */
  ghost function Actor(e: Step): int {
    match e
    case Lock(t) => t
    case Merge(t, _) => t
    case TrySend(t, _) => t
    case EndTrying(t) => t
    case Choose(t, _) => t
    case HandOver(t, _) => t
    case DeleteHanded(t) => t
    case Unlock(t) => t
    case _ => -1
  }

  ghost predicate ChannelsStay(s: State, s': State) {
    |s.subs| <= |s'.subs| && forall k :: 0 <= k < |s.subs| ==> s'.subs[k].chan == s.subs[k].chan
  }

  lemma StepKeepsChannels(s: State, e: Step)
    requires Enabled(s, e)
    ensures ChannelsStay(s, Next(s, e))
  {
    hide Find, FindChan, Delete, Deactivate, ChansOf, Cases, ChanAt;
  }

  lemma OthersStay(s: State, e: Step, t: nat)
    requires Enabled(s, e) && Actor(e) != t
    ensures t < |s.senders| ==> t < |Next(s, e).senders| && Next(s, e).senders[t] == s.senders[t]
    ensures t >= |s.senders| && t < |Next(s, e).senders| ==> Next(s, e).senders[t] == Calling
  {
    hide Find, FindChan, Delete, Deactivate, ChansOf, Cases, ChanAt;
  }

  /** A Send's own steps before and after the select. */
  lemma OwnStep(s: State, e: Step, t: nat)
    requires Enabled(s, e) && Actor(e) == t && !e.HandOver? && !e.DeleteHanded?
    ensures ThrownOut(Next(s, e), t) == ThrownOut(s, t)
  {
    hide Find, Delete, Deactivate, ChansOf, Cases, ChanAt;
    match e {
      case Lock(_) =>
      case Merge(_, _) =>
      case TrySend(_, _) =>
      case EndTrying(_) =>
      case Choose(_, _) =>
      case Unlock(_) =>
    }
  }

  /** A channel is handed over. */
  lemma HandedStep(s: State, t: nat, k: nat)
    requires Enabled(s, HandOver(t, k))
    ensures ThrownOut(Next(s, HandOver(t, k)), t) == ThrownOut(s, t) + Got(s, HandOver(t, k), t)
  {
  }

  /** And then thrown out. */
  lemma DeletedStep(s: State, t: nat)
    requires Enabled(s, DeleteHanded(t))
    ensures ThrownOut(Next(s, DeleteHanded(t)), t) == ThrownOut(s, t)
  {
    hide Find, Delete;
    var x := s.senders[t];
    var c := multiset{s.subs[x.sub].chan};
    assert x.log.dropped + c + x.log.late == x.log.dropped + x.log.late + c;
  }

  lemma StepThrowsOut(s: State, e: Step, t: nat)
    requires Inv(s) && Enabled(s, e)
    ensures ThrownOut(Next(s, e), t) == ThrownOut(s, t) + Got(s, e, t)
  {
    hide Total, EntriesMatch, MissedAreInCases, OneToken, HeadFirst, LogFits, Next, Enabled;
    if Actor(e) == t {
      if e.HandOver? {
        HandedStep(s, t, e.k);
      } else if e.DeleteHanded? {
        DeletedStep(s, t);
      } else {
        OwnStep(s, e, t);
      }
    } else {
      OthersStay(s, e, t);
      StepKeepsChannels(s, e);
      if t < |s.senders| {
        assert SenderFits(s, s.senders[t]);
      }
    }
  }

  lemma {:induction false} RunThrowsOut(s: State, es: seq<Step>, t: nat)
    requires Inv(s) && CanRun(s, es)
    ensures ThrownOut(Run(s, es), t) == ThrownOut(s, t) + Received(s, es, t)
    decreases |es|
  {
    hide Inv, Next, Enabled, ThrownOut, Got;
    if es != [] {
      StepKeeps(s, es[0]);
      StepThrowsOut(s, es[0], t);
      RunThrowsOut(Next(s, es[0]), es[1..], t);
    }
  }

  /**
   A Send that returned served each entry it started from once, except those dropped before their
   turn. What it dropped, and what it threw out after serving it, are just the channels that removals
   handed to it; if none was, it served exactly what it started from.
   */
  lemma SendServesOnce(es: seq<Step>, t: nat)
    requires CanRun(Init(), es)
    requires t < |Reached(es).senders| && Reached(es).senders[t].Returned?
    ensures var log := Reached(es).senders[t].log;
            && multiset(log.delivered) + log.dropped == log.start
            && |log.delivered| + |log.dropped| == |log.start|
            && log.dropped + log.late == Received(Init(), es, t)
            && (Received(Init(), es, t) == multiset{} ==> multiset(log.delivered) == log.start)
  {
    hide Run, CanRun, Total, Received;
    InitInv();
    RunKeeps(Init(), es);
    RunThrowsOut(Init(), es, t);
    var s := Reached(es);
    assert SenderFits(s, s.senders[t]);
    var log := s.senders[t].log;
    assert |multiset(log.delivered)| == |log.delivered|;
    assert ThrownOut(Init(), t) == multiset{};
  }
}
