/**
 What a Send does before it waits and what it waits for, and that a removal goes on until it is over.
 */
module FeedProgress {
  import opened CaseLists
  import opened FeedProtocol
  import opened FeedInvariant
  import opened FeedRuns
  import opened FeedHistory

  // ---------- the TrySend loop ----------

  /** The channels Send t has still to serve. */
  ghost function Unserved(s: State, t: nat): multiset<Chan> {
    if t >= |s.senders| then multiset{}
    else match s.senders[t]
      case Trying(_, m, _) => if m <= |s.cases| then ChansOf(s.cases[..m]) else multiset{}
      case Selecting(m, _) => if m <= |s.cases| then ChansOf(s.cases[..m]) else multiset{}
      case _ => multiset{}
  }

  /** Those its loop has not come to since it was last started. */
  ghost function Untried(s: State, t: nat): multiset<Chan> {
    if t < |s.senders| && s.senders[t].Trying? && s.senders[t].i <= s.senders[t].m <= |s.cases|
    then ChansOf(s.cases[s.senders[t].i..s.senders[t].m])
    else multiset{}
  }

  /** A turn of the loop takes the entry it tries, served or not, out of those not tried, and no other. */
  lemma TryTakesOne(s: State, t: nat, ok: bool)
    requires Inv(s) && Enabled(s, TrySend(t, ok))
    ensures Untried(s, t) == Untried(Next(s, TrySend(t, ok)), t) + ChanOf(s.cases[s.senders[t].i])
  {
    hide Total, Inv;
    var cs, i, m := s.cases, s.senders[t].i, s.senders[t].m;
    assert cs[i..m] == [cs[i]] + cs[i + 1..m];
    TotalConcat([cs[i]], cs[i + 1..m], ChanOf);
    TotalOne(cs[i], ChanOf);
    if ok {
      var r := Deactivate(cs, m, i);
      if i < m - 1 {
        assert r[i..m - 1] == [cs[m - 1]] + cs[i + 1..m - 1];
        assert cs[i + 1..m] == cs[i + 1..m - 1] + [cs[m - 1]];
        TotalConcat([cs[m - 1]], cs[i + 1..m - 1], ChanOf);
        TotalConcat(cs[i + 1..m - 1], [cs[m - 1]], ChanOf);
      } else {
        assert r[i..m - 1] == [] && cs[i + 1..m] == [];
      }
    }
  }

  /** The step starts a pass of the loop. */
  ghost predicate StartsPass(e: Step, t: nat) {
    e == Merge(t, true) || (e.Choose? && e.t == t) || e == DeleteHanded(t)
  }

  /** At its start nothing has been tried. */
  lemma PassStarts(s: State, e: Step, t: nat)
    requires Inv(s) && Enabled(s, e) && StartsPass(e, t)
    ensures var r := Next(s, e); t < |r.senders| && r.senders[t].Trying? && Untried(r, t) == Unserved(r, t)
  {
    hide Inv, Next, Enabled, Total, ChansOf, LogFits;
    StepKeeps(s, e);
    var r := Next(s, e);
    PassMoves(s, e, t);
    FirstIsRemove(r, r.senders[t].m, t);
  }

  lemma PassMoves(s: State, e: Step, t: nat)
    requires Enabled(s, e) && StartsPass(e, t)
    ensures var r := Next(s, e); t < |r.senders| && r.senders[t].Trying? && r.senders[t].i == 1
  {
    hide Find, Delete, Deactivate, ChansOf, Cases, ChanAt;
  }

  /** The removeSub case has no channel. */
  lemma FirstIsRemove(s: State, m: nat, t: nat)
    requires Inv(s) && t < |s.senders| && s.senders[t].Trying? && m == s.senders[t].m
    ensures 1 <= m <= |s.cases| && ChansOf(s.cases[..m]) == ChansOf(s.cases[1..m])
  {
    hide Total;
    assert SenderFits(s, s.senders[t]);
    assert s.cases[..m] == s.cases[..1] + s.cases[1..m];
    OnlyHead(s.cases);
    TotalConcat(s.cases[..1], s.cases[1..m], ChanOf);
  }

  /** The loop is over exactly when everything has been tried. */
  lemma LoopEndsIff(s: State, t: nat)
    requires Inv(s) && t < |s.senders| && s.senders[t].Trying?
    ensures Enabled(s, EndTrying(t)) <==> Untried(s, t) == multiset{}
  {
    hide Total;
    var cs, i, m := s.cases, s.senders[t].i, s.senders[t].m;
    assert SenderFits(s, s.senders[t]);
    if i < m {
      assert cs[i..m] == [cs[i]] + cs[i + 1..m];
      TotalConcat([cs[i]], cs[i + 1..m], ChanOf);
      TotalOne(cs[i], ChanOf);
      assert cs[i].chan in Untried(s, t);
    } else if i == m {
      assert cs[i..m] == [];
      TotalNone(ChanOf);
    }
  }

  /** While a Send tries, only its own steps change the list of cases. */
  lemma OthersKeepUntried(s: State, e: Step, t: nat)
    requires Inv(s) && Enabled(s, e) && Actor(e) != t && t < |s.senders| && s.senders[t].Trying?
    ensures Next(s, e).cases == s.cases
    ensures t < |Next(s, e).senders| && Next(s, e).senders[t] == s.senders[t]
  {
    hide Total, Find, FindChan, Delete, Deactivate, ChansOf, Cases, ChanAt, LogFits;
    OthersStay(s, e, t);
    TokenWithSend(s, t);
  }

  /** The entries that Send t tried in the steps from a to n. */
  ghost function Tried(es: seq<Step>, a: nat, n: nat, t: nat): multiset<Chan>
    requires n <= |es|
  {
    if n <= a then multiset{}
    else
      Tried(es, a, n - 1, t) +
      if es[n - 1].TrySend? && es[n - 1].t == t && CanRun(Init(), es[..n - 1]) && Enabled(At(es, n - 1), es[n - 1])
      then ChanOf(At(es, n - 1).cases[At(es, n - 1).senders[t].i])
      else multiset{}
  }

  /** Send t stays in its loop from step a to step n. */
  ghost predicate InLoop(es: seq<Step>, a: nat, n: nat, t: nat) {
    forall j :: a <= j < n <= |es| ==> Actor(es[j]) == t ==> es[j].TrySend?
  }

  lemma {:induction false} TriedUntil(es: seq<Step>, a: nat, t: nat, n: nat)
    requires CanRun(Init(), es) && 0 < a <= n <= |es| && StartsPass(es[a - 1], t) && InLoop(es, a, n, t)
    ensures CanRun(Init(), es[..a]) && CanRun(Init(), es[..n])
    ensures t < |At(es, n).senders| && At(es, n).senders[t].Trying?
    ensures Untried(At(es, n), t) + Tried(es, a, n, t) == Unserved(At(es, a), t)
  {
    hide Inv, Next, Enabled, At, Untried, Unserved, CanRun;
    AtNext(es, a - 1);
    if n == a {
      PassStarts(At(es, a - 1), es[a - 1], t);
    } else {
      TriedUntil(es, a, t, n - 1);
      AtNext(es, n - 1);
      TryStep(At(es, n - 1), es[n - 1], t);
    }
  }

  lemma TryStep(s: State, e: Step, t: nat)
    requires Inv(s) && Enabled(s, e) && t < |s.senders| && s.senders[t].Trying? && (Actor(e) == t ==> e.TrySend?)
    ensures t < |Next(s, e).senders| && Next(s, e).senders[t].Trying?
    ensures Untried(s, t) == Untried(Next(s, e), t) +
              if e.TrySend? && e.t == t then ChanOf(s.cases[s.senders[t].i]) else multiset{}
  {
    hide Inv, Total, ChansOf, Find, FindChan, Delete, Deactivate, Cases, ChanAt;
    if Actor(e) == t {
      TryTakesOne(s, t, e.ok);
    } else {
      OthersKeepUntried(s, e, t);
    }
  }

  /** Before it waits for anybody, a pass tries every entry still to be served, each exactly once. */
  lemma EachIsTried(es: seq<Step>, a: nat, t: nat, n: nat)
    requires CanRun(Init(), es) && 0 < a <= n < |es| && StartsPass(es[a - 1], t) && InLoop(es, a, n, t)
    requires es[n] == EndTrying(t)
    ensures CanRun(Init(), es[..a]) && Tried(es, a, n, t) == Unserved(At(es, a), t)
  {
    hide Inv, Next, At, Untried, Unserved, CanRun, Tried;
    TriedUntil(es, a, t, n);
    AtNext(es, n);
    LoopEndsIff(At(es, n), t);
  }

  // ---------- the select ----------

  /** No Send waits at its select with nothing to serve. */
  ghost predicate SelectsToServe(s: State) {
    forall t :: 0 <= t < |s.senders| && s.senders[t].Selecting? ==> s.senders[t].m > 1
  }

  lemma SelectsKeep(s: State, e: Step)
    requires Inv(s) && Enabled(s, e) && SelectsToServe(s)
    ensures SelectsToServe(Next(s, e))
  {
    hide Total, Find, FindChan, Delete, Deactivate, ChansOf, Cases, ChanAt;
    var r := Next(s, e);
    forall t | 0 <= t < |r.senders| && r.senders[t].Selecting?
      ensures r.senders[t].m > 1
    {
      if Actor(e) != t {
        OthersStay(s, e, t);
      } else {
        assert SenderFits(s, s.senders[t]);
      }
    }
  }

  lemma {:induction false} SelectsUntil(es: seq<Step>, n: nat)
    requires CanRun(Init(), es) && n <= |es|
    ensures CanRun(Init(), es[..n]) && SelectsToServe(At(es, n))
  {
    hide Inv, Next, Enabled, At, SelectsToServe;
    if n == 0 {
      NobodySelects(es);
    } else {
      AtNext(es, n - 1);
      SelectsUntil(es, n - 1);
      SelectsKeep(At(es, n - 1), es[n - 1]);
    }
  }

  lemma NobodySelects(es: seq<Step>)
    requires CanRun(Init(), es[..0])
    ensures SelectsToServe(At(es, 0))
  {
  }

  /** A place of the list at which the channel is. */
  lemma PlaceOf(cs: seq<Case>, c: Chan) returns (i: nat)
    requires c in ChansOf(cs)
    ensures i < |cs| && cs[i] == Sub(c)
  {
    InCases(cs, c);
    i :| i < |cs| && cs[i] == Sub(c);
  }

  /**
   A Send at its select has something to serve, and whichever channel it has not served and nobody
   has removed can be chosen, so it waits for no particular receiver.
   */
  lemma SelectOffersAll(es: seq<Step>, t: nat)
    requires CanRun(Init(), es) && t < |Reached(es).senders| && Reached(es).senders[t].Selecting?
    ensures var s := Reached(es); var log := s.senders[t].log;
            && log.start != multiset(log.delivered) + log.dropped
            && forall c :: c in log.start - multiset(log.delivered) - log.dropped ==> Offers(s, t, c)
  {
    hide Run, CanRun, Total, LogFits, Offers;
    assert es[..|es|] == es;
    SelectsUntil(es, |es|);
    InitInv();
    RunKeeps(Init(), es);
    var s := Reached(es);
    assert SenderFits(s, s.senders[t]);
    FitsIn(s.cases, s.senders[t].m, s.senders[t].log);
    ToServe(s.cases, s.senders[t].m, s.senders[t].log);
    forall c | c in ChansOf(s.cases[..s.senders[t].m])
      ensures Offers(s, t, c)
    {
      ChannelOffered(s, t, c);
    }
  }

  /** The Send can choose this channel. */
  ghost predicate Offers(s: State, t: nat, c: Chan) {
    exists i: nat :: Enabled(s, Choose(t, i)) && s.cases[i] == Sub(c)
  }

  /** The entries before m are those not served or removed, and with more than one there is a channel. */
  lemma ToServe(cs: seq<Case>, m: nat, log: Log)
    requires HeadFirst(cs) && LogFits(cs, m, log)
    ensures ChansOf(cs[..m]) == log.start - multiset(log.delivered) - log.dropped
    ensures m > 1 ==> log.start != multiset(log.delivered) + log.dropped
  {
    hide Total;
    var left := ChansOf(cs[..m]);
    assert left + (multiset(log.delivered) + log.dropped) == log.start;
    if m > 1 {
      assert cs[..m][1] == cs[1] && cs[1].Sub?;
      TotalHas(cs[..m], ChanOf, 1);
      assert cs[1].chan in left;
    }
  }

  lemma ChannelOffered(s: State, t: nat, c: Chan)
    requires Inv(s) && t < |s.senders| && s.senders[t].Selecting?
    requires s.senders[t].m <= |s.cases| && c in ChansOf(s.cases[..s.senders[t].m])
    ensures Offers(s, t, c)
  {
    hide ChansOf, LogFits;
    var i := PlaceOf(s.cases[..s.senders[t].m], c);
    assert Enabled(s, Choose(t, i));
  }

  lemma FitsIn(cs: seq<Case>, m: nat, log: Log)
    requires LogFits(cs, m, log)
    ensures m <= |cs|
  {
  }

  /**
   A Send that has not returned has a step of its own, except that it waits for the token while
   somebody else has it, and at its select for one of the receivers it offers the value to.
   */
  lemma SendGoesOn(es: seq<Step>, t: nat)
    requires CanRun(Init(), es) && t < |Reached(es).senders| && !Reached(es).senders[t].Returned?
    ensures var s := Reached(es);
            (s.senders[t].Calling? && s.tokens == 0) || exists e :: Enabled(s, e) && Actor(e) == t
  {
    hide Run, CanRun, Total, Next;
    InitInv();
    RunKeeps(Init(), es);
    var s := Reached(es);
    assert SenderFits(s, s.senders[t]);
    match s.senders[t] {
      case Calling =>
        if s.tokens > 0 {
          assert Enabled(s, Lock(t));
        }
      case Merging => assert Enabled(s, Merge(t, true));
      case Trying(i, m, _) => assert if i < m then Enabled(s, TrySend(t, false)) else Enabled(s, EndTrying(t));
      case Selecting(_, log) =>
        SelectOffersAll(es, t);
        OneToChoose(s, t, log);
      case Deleting(k, _, _) =>
        MissedIsFound(s, k);
        assert Enabled(s, DeleteHanded(t));
      case Releasing(_) =>
        TokenWithSend(s, t);
        assert Enabled(s, Unlock(t));
    }
  }

  lemma OneToChoose(s: State, t: nat, log: Log)
    requires multiset(log.delivered) + log.dropped <= log.start && log.start != multiset(log.delivered) + log.dropped
    requires forall c :: c in log.start - multiset(log.delivered) - log.dropped ==> Offers(s, t, c)
    ensures exists e :: Enabled(s, e) && Actor(e) == t
  {
    var c := SomeLeft(log.start, multiset(log.delivered), log.dropped);
    assert Offers(s, t, c);
    var i: nat :| Enabled(s, Choose(t, i)) && s.cases[i] == Sub(c);
    assert Actor(Choose(t, i)) == t;
  }

  lemma SomeLeft(start: multiset<Chan>, a: multiset<Chan>, b: multiset<Chan>) returns (c: Chan)
    requires a + b <= start && start != a + b
    ensures c in start - a - b
  {
    var left := start - a - b;
    assert start == left + (a + b);
    assert left != multiset{};
    c :| c in left;
  }

  // ---------- removals ----------

  /** A removal once begun is never taken back. */
  lemma {:induction false} NeverActiveAgain(es: seq<Step>, j: nat, k: nat, n: nat)
    requires CanRun(Init(), es) && j < n <= |es| && es[j] == BeginUnsubscribe(k)
    ensures CanRun(Init(), es[..n]) && k < |At(es, n).subs| && !At(es, n).subs[k].phase.Active?
  {
    hide Inv, Next, Enabled, At;
    AtNext(es, n - 1);
    if n == j + 1 {
      BeginEnds(At(es, j), k);
    } else {
      NeverActiveAgain(es, j, k, n - 1);
      InactiveStays(At(es, n - 1), es[n - 1], k);
    }
  }

  lemma BeginEnds(s: State, k: nat)
    requires Enabled(s, BeginUnsubscribe(k))
    ensures k < |Next(s, BeginUnsubscribe(k)).subs| && !Next(s, BeginUnsubscribe(k)).subs[k].phase.Active?
  {
  }

  lemma InactiveStays(s: State, e: Step, k: nat)
    requires Enabled(s, e) && k < |s.subs| && !s.subs[k].phase.Active?
    ensures k < |Next(s, e).subs| && !Next(s, e).subs[k].phase.Active?
  {
    hide Find, FindChan, Delete, Deactivate, ChansOf, Cases, ChanAt;
  }

  /** Send t has received k on removeSub. */
  ghost predicate HandedTo(s: State, t: nat, k: nat) {
    t < |s.senders| && s.senders[t].Deleting? && s.senders[t].sub == k
  }

  /** Whoever is handed over is with a Send. */
  ghost predicate HandedHeld(s: State) {
    forall k :: SubIn(s, k, Handed) ==> exists t :: HandedTo(s, t, k)
  }

  lemma HandedKeeps(s: State, e: Step)
    requires Inv(s) && Enabled(s, e) && HandedHeld(s)
    ensures HandedHeld(Next(s, e))
  {
    hide Total, Find, FindChan, Delete, Deactivate, ChansOf, Cases, ChanAt, LogFits;
    var r := Next(s, e);
    forall k | SubIn(r, k, Handed)
      ensures exists t :: HandedTo(r, t, k)
    {
      if SubIn(s, k, Handed) {
        var u :| HandedTo(s, u, k);
        TokenWithSend(s, u);
        if Actor(e) != u {
          OthersStay(s, e, u);
        }
        assert HandedTo(r, u, k);
      } else {
        assert HandedTo(r, e.t, k);
      }
    }
  }

  lemma {:induction false} HandedUntil(es: seq<Step>, n: nat)
    requires CanRun(Init(), es) && n <= |es|
    ensures CanRun(Init(), es[..n]) && HandedHeld(At(es, n))
  {
    hide Inv, Next, Enabled, At, HandedHeld;
    if n == 0 {
      NobodyHanded(es);
    } else {
      AtNext(es, n - 1);
      HandedUntil(es, n - 1);
      HandedKeeps(At(es, n - 1), es[n - 1]);
    }
  }

  lemma NobodyHanded(es: seq<Step>)
    requires CanRun(Init(), es[..0])
    ensures HandedHeld(At(es, 0))
  {
  }

  /**
   A removal that has begun and is not over is never stuck in any phase: it has a step of its own,
   the Send it was handed to has one, or it waits at its select, where RemovalIsNeverStuck holds.
   */
  lemma RemovalGoesOn(es: seq<Step>, k: nat)
    requires CanRun(Init(), es) && k < |Reached(es).subs|
    requires !Reached(es).subs[k].phase.Active? && !Reached(es).subs[k].phase.Gone?
    ensures exists e :: Enabled(Reached(es), e) && (Helps(Reached(es), e, k) || e == CheckInbox(k))
  {
    hide Run, CanRun, Total, Next;
    InitInv();
    RunKeeps(Init(), es);
    var s := Reached(es);
    match s.subs[k].phase {
      case Checking => assert Enabled(s, CheckInbox(k));
      case Waiting => RemovalIsNeverStuck(es, k);
      case Holding =>
        MissedIsFound(s, k);
        assert Enabled(s, DeleteHeld(k));
      case Yielding =>
        TokenWithSub(s, k);
        assert Enabled(s, GiveBack(k));
      case Handed =>
        assert es[..|es|] == es;
        HandedUntil(es, |es|);
        HandedMoves(s, k);
    }
  }

  lemma HandedMoves(s: State, k: nat)
    requires Inv(s) && HandedHeld(s) && SubIn(s, k, Handed)
    ensures exists e :: Enabled(s, e) && Helps(s, e, k)
  {
    hide Total, Next;
    var t :| HandedTo(s, t, k);
    MissedIsFound(s, k);
    assert Enabled(s, DeleteHanded(t));
  }

  /** A Send delivers to no channel all of whose subscriptions had been removed when it took over the inbox. */
  lemma RemovedIsNotServed(es: seq<Step>, t: nat, c: Chan) returns (m: nat, ok: bool)
    requires CanRun(Init(), es) && t < |Reached(es).senders| && Reached(es).senders[t].Returned?
    ensures MergedAt(es, m, t, ok)
    ensures (forall k :: 0 <= k < |At(es, m).subs| && At(es, m).subs[k].chan == c ==> At(es, m).subs[k].phase.Gone?)
            ==> c !in Reached(es).senders[t].log.delivered
  {
    hide Run, CanRun, Total;
    m, ok := SendStartsFrom(es, t);
    var subs := At(es, m).subs;
    if forall k :: 0 <= k < |subs| && subs[k].chan == c ==> subs[k].phase.Gone? {
      NonePresent(subs, c);
      assert c !in Reached(es).senders[t].log.start;
    }
  }

  lemma {:induction false} NonePresent(subs: seq<Subscription>, c: Chan)
    requires forall k :: 0 <= k < |subs| && subs[k].chan == c ==> subs[k].phase.Gone?
    ensures c !in Total(subs, Present)
    decreases |subs|
  {
    if subs != [] {
      NonePresent(subs[..|subs| - 1], c);
    }
  }

  // ---------- the order of the inbox ----------

  /** The first is the second with entries left out. */
  ghost predicate Subsequence(a: seq<Chan>, b: seq<Chan>)
    decreases |b|
  {
    a == [] ||
    (b != [] && (Subsequence(a, b[..|b| - 1])
                 || (a[|a| - 1] == b[|b| - 1] && Subsequence(a[..|a| - 1], b[..|b| - 1]))))
  }

  function Channels(subs: seq<Subscription>): (r: seq<Chan>)
    ensures |r| == |subs|
  {
    seq(|subs|, k requires 0 <= k < |subs| => subs[k].chan)
  }

  lemma {:induction false} LeaveOut(a: seq<Chan>, b: seq<Chan>, i: nat)
    requires Subsequence(a, b) && i < |a|
    ensures Subsequence(Delete(a, i), b)
    decreases |b|
  {
    var n := |b| - 1;
    if Subsequence(a, b[..n]) {
      LeaveOut(a, b[..n], i);
    } else if i == |a| - 1 {
      assert Delete(a, i) == a[..i];
    } else {
      LeaveOut(a[..|a| - 1], b[..n], i);
      assert Delete(a, i)[..|a| - 2] == Delete(a[..|a| - 1], i);
    }
  }

  ghost predicate InboxOrdered(s: State) {
    Subsequence(s.inbox, Channels(s.subs))
  }

  lemma ChannelsStayInOrder(s: State, e: Step)
    requires Enabled(s, e) && !e.Subscribe?
    ensures Channels(Next(s, e).subs) == Channels(s.subs)
    ensures !e.CheckInbox? && !e.Merge? ==> Next(s, e).inbox == s.inbox
  {
    hide Find, FindChan, Delete, Deactivate, ChansOf, Cases, ChanAt;
  }

  lemma OrderKeeps(s: State, e: Step)
    requires Enabled(s, e) && InboxOrdered(s)
    ensures InboxOrdered(Next(s, e))
  {
    hide Next, Enabled, Subsequence;
    match e {
      case Subscribe(c) => OneSubscribes(s, c);
      case CheckInbox(k) =>
        ChannelsStayInOrder(s, e);
        OneChecks(s, k);
      case Merge(_, _) =>
        ChannelsStayInOrder(s, e);
        MergeEmpties(s, e);
      case _ => ChannelsStayInOrder(s, e);
    }
  }

  lemma OneChecks(s: State, k: nat)
    requires Enabled(s, CheckInbox(k)) && InboxOrdered(s)
    ensures Subsequence(Next(s, CheckInbox(k)).inbox, Channels(s.subs))
  {
    hide Subsequence;
    var i := FindChan(s.inbox, s.subs[k].chan);
    if i >= 0 {
      LeaveOut(s.inbox, Channels(s.subs), i);
    }
  }

  lemma MergeEmpties(s: State, e: Step)
    requires Enabled(s, e) && e.Merge?
    ensures Next(s, e).inbox == [] && Subsequence(Next(s, e).inbox, Channels(s.subs))
  {
  }

  lemma OneSubscribes(s: State, c: Chan)
    requires InboxOrdered(s)
    ensures InboxOrdered(Next(s, Subscribe(c)))
  {
    var r := Next(s, Subscribe(c));
    var b := Channels(r.subs);
    assert b[..|b| - 1] == Channels(s.subs) && b[|b| - 1] == c;
    assert r.inbox[..|r.inbox| - 1] == s.inbox && r.inbox[|r.inbox| - 1] == c;
  }

  /** The inbox has its channels in the order in which they were subscribed. */
  lemma {:induction false} InboxInOrder(es: seq<Step>, n: nat)
    requires CanRun(Init(), es) && n <= |es|
    ensures CanRun(Init(), es[..n]) && Subsequence(At(es, n).inbox, Channels(At(es, n).subs))
  {
    hide Inv, Next, Enabled, At, Subsequence;
    if n == 0 {
      EmptyInbox(es);
    } else {
      AtNext(es, n - 1);
      InboxInOrder(es, n - 1);
      OrderKeeps(At(es, n - 1), es[n - 1]);
    }
  }

  lemma EmptyInbox(es: seq<Step>)
    requires CanRun(Init(), es[..0])
    ensures InboxOrdered(At(es, 0))
  {
  }
}
