/**
 What a run of FeedProtocol owes to each subscription, from the steps in which Subscribe was called
 and Send took over the inbox: where a Send starts from and whom it delivers to.
 */
module FeedHistory {
  import opened CaseLists
  import opened FeedProtocol
  import opened FeedInvariant
  import opened FeedRuns

  // ---------- the states of a run ----------

  /** The state after n steps. */
  ghost function At(es: seq<Step>, n: nat): State
    requires n <= |es| && CanRun(Init(), es[..n])
  {
    Reached(es[..n])
  }

  lemma {:induction false} RunSplit(s: State, x: seq<Step>, e: Step)
    ensures CanRun(s, x + [e]) <==> CanRun(s, x) && Enabled(Run(s, x), e)
    ensures CanRun(s, x + [e]) ==> Run(s, x + [e]) == Next(Run(s, x), e)
    decreases |x|
  {
    hide Next, Enabled;
    if x == [] {
      assert x + [e] == [e] && [e][1..] == [];
    } else {
      assert (x + [e])[1..] == x[1..] + [e];
      if Enabled(s, x[0]) {
        RunSplit(Next(s, x[0]), x[1..], e);
      }
    }
  }

  lemma {:induction false} Prefixes(es: seq<Step>, n: nat)
    requires CanRun(Init(), es) && n <= |es|
    ensures CanRun(Init(), es[..n])
    decreases |es|
  {
    if n < |es| {
      var x := es[..|es| - 1];
      assert es == x + [es[|es| - 1]] && es[..n] == x[..n];
      RunSplit(Init(), x, es[|es| - 1]);
      Prefixes(x, n);
    } else {
      assert es[..n] == es;
    }
  }

  /** The state after a step is the one before it moved on. */
  lemma AtNext(es: seq<Step>, n: nat)
    requires CanRun(Init(), es) && n < |es|
    ensures CanRun(Init(), es[..n]) && CanRun(Init(), es[..n + 1]) && Inv(At(es, n))
    ensures Enabled(At(es, n), es[n]) && At(es, n + 1) == Next(At(es, n), es[n])
  {
    hide Inv, Next, Enabled, CanRun, Run;
    Prefixes(es, n);
    Prefixes(es, n + 1);
    assert es[..n + 1] == es[..n] + [es[n]];
    RunSplit(Init(), es[..n], es[n]);
    InitInv();
    RunKeeps(Init(), es[..n]);
  }

  /** Subscription k was made in step i, with channel c. */
  ghost predicate SubscribedAt(es: seq<Step>, i: nat, k: nat, c: Chan) {
    i < |es| && CanRun(Init(), es[..i]) && es[i] == Subscribe(c) && |At(es, i).subs| == k
  }

  /** Send t took over the inbox in step m; ok says that its value has the feed's type. */
  ghost predicate MergedAt(es: seq<Step>, m: nat, t: nat, ok: bool) {
    m < |es| && CanRun(Init(), es[..m]) && es[m] == Merge(t, ok)
  }

  // ---------- where a Send starts from ----------

  /** Send t has taken over the inbox, and this is what it started from. */
  ghost predicate StartIs(s: State, t: nat, start: multiset<Chan>) {
    t < |s.senders| &&
    match s.senders[t]
    case Trying(_, _, log) => log.start == start
    case Selecting(_, log) => log.start == start
    case Deleting(_, _, log) => log.start == start
    case Releasing(log) => log.start == start
    case Returned(log) => log.start == start
    case _ => false
  }

  /** The channels of the subscriptions not yet removed. */
  ghost function Subscribed(s: State): multiset<Chan> {
    Total(s.subs, Present)
  }

  lemma MergeStarts(s: State, t: nat, ok: bool)
    requires Inv(s) && Enabled(s, Merge(t, ok))
    ensures StartIs(Next(s, Merge(t, ok)), t, if ok then Subscribed(s) else multiset{})
  {
    hide Total;
    TotalConcat(s.cases, Cases(s.inbox), ChanOf);
    TotalCases(s.inbox);
  }

  lemma StartStays(s: State, e: Step, t: nat, start: multiset<Chan>)
    requires Enabled(s, e) && StartIs(s, t, start)
    ensures StartIs(Next(s, e), t, start)
  {
    hide Find, FindChan, Delete, Deactivate, ChansOf, Cases, ChanAt;
    if Actor(e) != t {
      OthersStay(s, e, t);
    }
  }

  lemma {:induction false} StartUntil(es: seq<Step>, m: nat, t: nat, ok: bool, n: nat)
    requires CanRun(Init(), es) && MergedAt(es, m, t, ok) && m < n <= |es|
    ensures CanRun(Init(), es[..n]) && StartIs(At(es, n), t, if ok then Subscribed(At(es, m)) else multiset{})
  {
    hide Inv, Next, Enabled, At, StartIs, Subscribed;
    AtNext(es, n - 1);
    if n == m + 1 {
      MergeStarts(At(es, m), t, ok);
    } else {
      StartUntil(es, m, t, ok, n - 1);
      StartStays(At(es, n - 1), es[n - 1], t, if ok then Subscribed(At(es, m)) else multiset{});
    }
  }

  /** Past its Merge. */
  predicate HasLog(x: Sender) {
    !x.Calling? && !x.Merging?
  }

  lemma HasLogFrom(s: State, e: Step, t: nat)
    requires Enabled(s, e) && t < |Next(s, e).senders| && HasLog(Next(s, e).senders[t])
    ensures t < |s.senders| && (HasLog(s.senders[t]) || (e.Merge? && e.t == t))
  {
    hide Find, FindChan, Delete, Deactivate, ChansOf, Cases, ChanAt;
    if Actor(e) != t {
      OthersStay(s, e, t);
    }
  }

  /** Every Send that returned took over the inbox in some step. */
  lemma {:induction false} EachMerged(es: seq<Step>, t: nat, n: nat) returns (m: nat, ok: bool)
    requires CanRun(Init(), es) && n <= |es| && CanRun(Init(), es[..n])
    requires t < |At(es, n).senders| && HasLog(At(es, n).senders[t])
    ensures m < n && MergedAt(es, m, t, ok)
  {
    hide Inv, Next, Enabled, At, CanRun, HasLog;
    assert n > 0 by {
      NobodyAtFirst(es);
    }
    AtNext(es, n - 1);
    HasLogFrom(At(es, n - 1), es[n - 1], t);
    if HasLog(At(es, n - 1).senders[t]) {
      m, ok := EachMerged(es, t, n - 1);
    } else {
      m, ok := n - 1, es[n - 1].typeOk;
    }
  }

  lemma NobodyAtFirst(es: seq<Step>)
    requires CanRun(Init(), es[..0])
    ensures At(es, 0).senders == [] && At(es, 0).subs == []
  {
  }

  /**
   A Send that returned had taken over the inbox in some step; a value of the right type starts from
   exactly the subscriptions not yet removed at that step, one of a wrong type from nothing, and
   nobody is served more often than that.
   */
  lemma SendStartsFrom(es: seq<Step>, t: nat) returns (m: nat, ok: bool)
    requires CanRun(Init(), es) && t < |Reached(es).senders| && Reached(es).senders[t].Returned?
    ensures MergedAt(es, m, t, ok)
    ensures var log := Reached(es).senders[t].log;
            && log.start == (if ok then Subscribed(At(es, m)) else multiset{})
            && multiset(log.delivered) <= log.start
  {
    hide Run, CanRun, Subscribed, Inv;
    assert es[..|es|] == es;
    m, ok := EachMerged(es, t, |es|);
    StartUntil(es, m, t, ok, |es|);
    SendServesOnce(es, t);
  }

  // ---------- a Send reaches every subscription ----------

  /** Subscription k is on channel c and nobody has asked to remove it. */
  ghost predicate ActiveOn(s: State, k: nat, c: Chan) {
    SubIn(s, k, Active) && s.subs[k].chan == c
  }

  lemma ActiveKeeps(s: State, e: Step, k: nat, c: Chan)
    requires Inv(s) && Enabled(s, e) && ActiveOn(s, k, c) && e != BeginUnsubscribe(k)
    ensures ActiveOn(Next(s, e), k, c)
  {
    hide Find, FindChan, Delete, Deactivate, ChansOf, Cases, ChanAt, Total, LogFits;
    if e.DeleteHanded? {
      assert SenderFits(s, s.senders[e.t]);
    }
  }

  /** sendCases has an entry of c beyond those that removals under way are going to delete. */
  ghost predicate Spare(s: State, c: Chan) {
    Total(s.subs, Missed)[c] < ChansOf(s.cases)[c]
  }

  /** All that is present is in sendCases, and k has no removal under way. */
  lemma ActiveSpare(s: State, k: nat, c: Chan)
    requires Inv(s) && ActiveOn(s, k, c) && c !in s.inbox
    ensures Spare(s, c)
  {
    hide Total;
    assert (multiset(s.inbox) + ChansOf(s.cases))[c] == Total(s.subs, Present)[c];
    MissedBelowPresent(s.subs, k, c);
  }

  lemma MissedBelowPresent(subs: seq<Subscription>, k: nat, c: Chan)
    requires k < |subs| && subs[k] == Subscription(c, Active)
    ensures Total(subs, Missed)[c] < Total(subs, Present)[c]
  {
    hide Total;
    TotalDelete(subs, Missed, k);
    TotalDelete(subs, Present, k);
    MissedIsPresent(Delete(subs, k), c);
    assert (Total(Delete(subs, k), Present) + multiset{c})[c] == Total(subs, Present)[c];
    assert (Total(Delete(subs, k), Missed) + multiset{})[c] == Total(subs, Missed)[c];
  }

  lemma MergeSpare(s: State, t: nat, ok: bool, k: nat, c: Chan)
    requires Inv(s) && Enabled(s, Merge(t, ok)) && ActiveOn(s, k, c)
    ensures Spare(Next(s, Merge(t, ok)), c)
  {
    hide Inv, Total;
    MergeKeeps(s, t, ok);
    ActiveSpare(Next(s, Merge(t, ok)), k, c);
  }

  /** A change of phase that does not begin or end a removal under way. */
  lemma PhaseSpare(s: State, j: nat, p: Phase, c: Chan)
    requires j < |s.subs| && Missed(s.subs[j]) == Missed(s.subs[j].(phase := p)) && Spare(s, c)
    ensures Spare(SetPhase(s, j, p), c)
  {
    hide Total;
    PhaseTotals(s, j, p);
  }

  /** Serving an entry moves it within sendCases. */
  lemma ServeSpare(s: State, e: Step, c: Chan)
    requires Enabled(s, e) && (e.TrySend? || e.Choose?) && Spare(s, c)
    ensures Spare(Next(s, e), c)
  {
    hide Total, Deactivate;
    match e {
      case TrySend(t, ok) =>
        if ok {
          DeactivateTotals(s.cases, s.senders[t].m, s.senders[t].i);
        }
      case Choose(t, i) => DeactivateTotals(s.cases, s.senders[t].m, i);
    }
  }

  lemma HandedSpare(s: State, t: nat, c: Chan)
    requires Inv(s) && Enabled(s, DeleteHanded(t)) && Spare(s, c)
    ensures Spare(Next(s, DeleteHanded(t)), c)
  {
    hide Total, Find, Delete;
    assert SenderFits(s, s.senders[t]);
    DeleteSpare(s, s.senders[t].sub, Gone, c);
  }

  lemma SubscribeSpare(s: State, d: Chan, c: Chan)
    requires Spare(s, c)
    ensures Spare(Next(s, Subscribe(d)), c)
  {
    hide Total;
    TotalAppend(s.subs, Missed, Subscription(d, Active));
  }

  /** While k stays subscribed, each step leaves an entry to spare. */
  lemma SpareStays(s: State, e: Step, k: nat, c: Chan)
    requires Inv(s) && Enabled(s, e) && ActiveOn(s, k, c) && Spare(s, c) && e != BeginUnsubscribe(k)
    ensures Spare(Next(s, e), c)
  {
    hide Inv, Total, ChansOf, Find, FindChan, Delete, Deactivate, Cases, ActiveOn;
    match e {
      case Subscribe(d) => SubscribeSpare(s, d, c);
      case BeginUnsubscribe(j) => PhaseSpare(s, j, Checking, c);
      case CheckInbox(j) => CheckSpare(s, j, k, c);
      case TakeToken(j) => PhaseSpare(s, j, Holding, c);
      case DeleteHeld(j) => DeleteSpare(s, j, Yielding, c);
      case GiveBack(j) => PhaseSpare(s, j, Gone, c);
      case Merge(t, ok) => MergeSpare(s, t, ok, k, c);
      case TrySend(_, _) => ServeSpare(s, e, c);
      case Choose(_, _) => ServeSpare(s, e, c);
      case HandOver(t, j) => PhaseSpare(s, j, Handed, c);
      case DeleteHanded(t) => HandedSpare(s, t, c);
      case _ =>
    }
  }

  lemma CheckSpare(s: State, j: nat, k: nat, c: Chan)
    requires Inv(s) && Enabled(s, CheckInbox(j)) && ActiveOn(s, k, c) && Spare(s, c)
    ensures Spare(Next(s, CheckInbox(j)), c)
  {
    hide Total, Inv;
    var r := Next(s, CheckInbox(j));
    PhaseTotals(s, j, Waiting);
    PhaseTotals(s, j, Gone);
    CheckInboxKeeps(s, j);
    if FindChan(s.inbox, s.subs[j].chan) == -1 {
      if s.subs[j].chan == c {
        ActiveSpare(r, k, c);
      } else {
        assert (Total(r.subs, Missed) + multiset{})[c] == (Total(s.subs, Missed) + multiset{s.subs[j].chan})[c];
      }
    }
  }

  /** A removal takes one entry out and is then no longer under way. */
  lemma DeleteSpare(s: State, j: nat, p: Phase, c: Chan)
    requires Inv(s) && j < |s.subs| && Missed(s.subs[j]) == multiset{s.subs[j].chan} && Spare(s, c)
    requires p == Yielding || p == Gone
    ensures var i := Find(s.cases, s.subs[j].chan);
            i >= 0 && Spare(SetPhase(s, j, p).(cases := Delete(s.cases, i)), c)
  {
    hide Total, Find;
    MissedIsFound(s, j);
    var d := s.subs[j].chan;
    var i := Find(s.cases, d);
    var r := SetPhase(s, j, p).(cases := Delete(s.cases, i));
    PhaseTotals(s, j, p);
    DeleteTotals(s.cases, 0, i);
    assert (Total(r.subs, Missed) + multiset{d})[c] == (Total(s.subs, Missed) + multiset{})[c];
    assert (ChansOf(r.cases) + multiset{d})[c] == ChansOf(s.cases)[c];
  }

  /** Send t is serving with c still to be kept in sendCases, or has delivered to it. */
  ghost predicate WillServe(s: State, t: nat, c: Chan) {
    t < |s.senders| &&
    match s.senders[t]
    case Trying(_, _, _) => Spare(s, c)
    case Selecting(_, _) => Spare(s, c)
    case Deleting(_, _, _) => Spare(s, c)
    case Releasing(log) => c in log.delivered
    case Returned(log) => c in log.delivered
    case _ => false
  }

  /** When nothing is left to serve, every entry of sendCases has been served. */
  lemma EndServes(s: State, t: nat, c: Chan)
    requires Inv(s) && Enabled(s, EndTrying(t)) && Spare(s, c)
    ensures WillServe(Next(s, EndTrying(t)), t, c)
  {
    hide Total;
    var x := s.senders[t];
    assert SenderFits(s, x);
    if x.m == 1 {
      OnlyHead(s.cases);
      assert s.cases == s.cases[..1] + s.cases[1..];
      TotalConcat(s.cases[..1], s.cases[1..], ChanOf);
      assert (ChansOf(s.cases[1..]) + x.log.late)[c] == multiset(x.log.delivered)[c];
    }
  }

  lemma WillServeKeeps(s: State, e: Step, t: nat, k: nat, c: Chan)
    requires Inv(s) && Enabled(s, e) && WillServe(s, t, c) && ActiveOn(s, k, c) && e != BeginUnsubscribe(k)
    ensures WillServe(Next(s, e), t, c)
  {
    hide Inv, Find, FindChan, Delete, Deactivate, ChansOf, Cases, ChanAt, Total, Spare;
    if Spare(s, c) {
      SpareStays(s, e, k, c);
    }
    if Actor(e) != t {
      OthersStay(s, e, t);
    } else if e.EndTrying? {
      EndServes(s, t, c);
    }
  }

  /** Nobody asks to remove k in the first n steps. */
  ghost predicate NotUnsubscribed(es: seq<Step>, n: nat, k: nat) {
    forall j :: 0 <= j < n <= |es| ==> es[j] != BeginUnsubscribe(k)
  }

  lemma {:induction false} ActiveUntil(es: seq<Step>, i: nat, k: nat, c: Chan, n: nat)
    requires CanRun(Init(), es) && SubscribedAt(es, i, k, c) && i < n <= |es| && NotUnsubscribed(es, n, k)
    ensures CanRun(Init(), es[..n]) && ActiveOn(At(es, n), k, c)
  {
    hide Inv, Next, Enabled, At, ActiveOn;
    AtNext(es, n - 1);
    if n == i + 1 {
      SubscribeActive(At(es, i), c);
    } else {
      ActiveUntil(es, i, k, c, n - 1);
      ActiveKeeps(At(es, n - 1), es[n - 1], k, c);
    }
  }

  lemma SubscribeActive(s: State, c: Chan)
    ensures ActiveOn(Next(s, Subscribe(c)), |s.subs|, c)
  {
  }

  lemma {:induction false} WillServeUntil(es: seq<Step>, i: nat, k: nat, c: Chan, m: nat, t: nat, n: nat)
    requires CanRun(Init(), es) && SubscribedAt(es, i, k, c) && MergedAt(es, m, t, true) && i < m < n <= |es|
    requires NotUnsubscribed(es, n, k)
    ensures CanRun(Init(), es[..n]) && WillServe(At(es, n), t, c)
  {
    hide Inv, Next, Enabled, At, ActiveOn, WillServe;
    AtNext(es, n - 1);
    ActiveUntil(es, i, k, c, n - 1);
    if n == m + 1 {
      MergeServes(At(es, m), t, k, c);
    } else {
      WillServeUntil(es, i, k, c, m, t, n - 1);
      WillServeKeeps(At(es, n - 1), es[n - 1], t, k, c);
    }
  }

  lemma MergeServes(s: State, t: nat, k: nat, c: Chan)
    requires Inv(s) && Enabled(s, Merge(t, true)) && ActiveOn(s, k, c)
    ensures WillServe(Next(s, Merge(t, true)), t, c)
  {
    hide Inv, Spare, ChansOf, Cases, Total;
    MergeSpare(s, t, true, k, c);
  }

  lemma ReturnedStays(s: State, e: Step, t: nat)
    requires Enabled(s, e) && t < |s.senders| && s.senders[t].Returned?
    ensures t < |Next(s, e).senders| && Next(s, e).senders[t] == s.senders[t]
  {
    hide Find, FindChan, Delete, Deactivate, ChansOf, Cases, ChanAt;
    if Actor(e) != t {
      OthersStay(s, e, t);
    }
  }

  lemma {:induction false} ReturnedIsOver(es: seq<Step>, t: nat, n: nat)
    requires CanRun(Init(), es) && n <= |es| && CanRun(Init(), es[..n])
    requires t < |At(es, n).senders| && At(es, n).senders[t].Returned?
    ensures t < |Reached(es).senders| && Reached(es).senders[t] == At(es, n).senders[t]
    decreases |es| - n
  {
    hide Inv, Next, Enabled, Run;
    if n < |es| {
      AtNext(es, n);
      ReturnedStays(At(es, n), es[n], t);
      ReturnedIsOver(es, t, n + 1);
    } else {
      assert es[..n] == es;
    }
  }

  /**
   A Send that returned has delivered to every channel that was subscribed before it took over the
   inbox and that nobody asked to remove before it returned, whatever happened to other subscriptions
   in between, the same channel's included.
   */
  lemma SubscriberIsServed(es: seq<Step>, i: nat, k: nat, c: Chan, m: nat, t: nat, n: nat)
    requires CanRun(Init(), es) && SubscribedAt(es, i, k, c) && MergedAt(es, m, t, true) && i < m < n <= |es|
    requires NotUnsubscribed(es, n, k)
    requires CanRun(Init(), es[..n]) && t < |At(es, n).senders| && At(es, n).senders[t].Returned?
    ensures t < |Reached(es).senders| && Reached(es).senders[t].Returned? && c in Reached(es).senders[t].log.delivered
  {
    hide Run, CanRun, Spare;
    WillServeUntil(es, i, k, c, m, t, n);
    ReturnedIsOver(es, t, n);
  }
}
