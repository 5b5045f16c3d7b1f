/**
 Every step of FeedProtocol, in any interleaving, keeps the invariant; and what the invariant
 gives: removals find their channel, the token is one, and a Send serves each entry once.
 */
module FeedInvariant {
  import opened CaseLists
  import opened FeedProtocol

  // ---------- the token ----------

  lemma TokenWithSub(s: State, k: nat)
    requires OneToken(s) && k < |s.subs| && (s.subs[k].phase.Holding? || s.subs[k].phase.Yielding?)
    ensures s.tokens == 0
    ensures forall t :: 0 <= t < |s.senders| ==> s.senders[t].Calling? || s.senders[t].Returned?
    ensures forall j :: 0 <= j < |s.subs| && j != k ==> !s.subs[j].phase.Holding? && !s.subs[j].phase.Yielding?
  {
    hide Total;
    TotalHas(s.subs, SubHolds, k);
    forall t | 0 <= t < |s.senders|
      ensures s.senders[t].Calling? || s.senders[t].Returned?
    {
      TotalHas(s.senders, SendHolds, t);
    }
    forall j | 0 <= j < |s.subs| && j != k
      ensures !s.subs[j].phase.Holding? && !s.subs[j].phase.Yielding?
    {
      if j < k {
        TotalHasTwo(s.subs, SubHolds, j, k);
      } else {
        TotalHasTwo(s.subs, SubHolds, k, j);
      }
    }
  }

  lemma TokenWithSend(s: State, t: nat)
    requires OneToken(s) && t < |s.senders| && !s.senders[t].Calling? && !s.senders[t].Returned?
    ensures s.tokens == 0
    ensures forall u :: 0 <= u < |s.senders| && u != t ==> s.senders[u].Calling? || s.senders[u].Returned?
    ensures forall k :: 0 <= k < |s.subs| ==> !s.subs[k].phase.Holding? && !s.subs[k].phase.Yielding?
  {
    hide Total;
    TotalHas(s.senders, SendHolds, t);
    forall u | 0 <= u < |s.senders| && u != t
      ensures s.senders[u].Calling? || s.senders[u].Returned?
    {
      if u < t {
        TotalHasTwo(s.senders, SendHolds, u, t);
      } else {
        TotalHasTwo(s.senders, SendHolds, t, u);
      }
    }
    forall k | 0 <= k < |s.subs|
      ensures !s.subs[k].phase.Holding? && !s.subs[k].phase.Yielding?
    {
      TotalHas(s.subs, SubHolds, k);
    }
  }

  lemma TokenFree(s: State)
    requires OneToken(s) && s.tokens > 0
    ensures forall t :: 0 <= t < |s.senders| ==> s.senders[t].Calling? || s.senders[t].Returned?
  {
    hide Total;
    forall t | 0 <= t < |s.senders|
      ensures s.senders[t].Calling? || s.senders[t].Returned?
    {
      TotalHas(s.senders, SendHolds, t);
    }
  }

  // ---------- small steps of the tallies ----------

  lemma PhaseTotals(s: State, k: nat, p: Phase)
    requires k < |s.subs|
    ensures var r, x, y := SetPhase(s, k, p), s.subs[k], s.subs[k].(phase := p);
            && Total(r.subs, Present) + Present(x) == Total(s.subs, Present) + Present(y)
            && Total(r.subs, Missed) + Missed(x) == Total(s.subs, Missed) + Missed(y)
            && (Present(x) == Present(y) ==> Total(r.subs, Present) == Total(s.subs, Present))
            && (Missed(x) == Missed(y) ==> Total(r.subs, Missed) == Total(s.subs, Missed))
            && Total(r.subs, SubHolds)[0] + SubHolds(x)[0] == Total(s.subs, SubHolds)[0] + SubHolds(y)[0]
  {
    hide Total;
    var r, x, y := SetPhase(s, k, p), s.subs[k], s.subs[k].(phase := p);
    TotalUpdate(s.subs, Present, k, y);
    TotalUpdate(s.subs, Missed, k, y);
    TotalUpdate(s.subs, SubHolds, k, y);
    Cancel(Total(r.subs, Present), Total(s.subs, Present), Present(x), Present(y));
    Cancel(Total(r.subs, Missed), Total(s.subs, Missed), Missed(x), Missed(y));
    assert (Total(r.subs, SubHolds) + SubHolds(x))[0] == (Total(s.subs, SubHolds) + SubHolds(y))[0];
  }

  lemma Cancel(a: multiset<nat>, b: multiset<nat>, c: multiset<nat>, d: multiset<nat>)
    requires a + c == b + d
    ensures c == d ==> a == b
  {
    if c == d {
      forall n: nat
        ensures a[n] == b[n]
      {
        assert (a + c)[n] == (b + d)[n];
      }
    }
  }

  lemma SenderTotals(s: State, t: nat, x: Sender)
    requires t < |s.senders|
    ensures Total(SetSender(s, t, x).senders, SendHolds)[0] + SendHolds(s.senders[t])[0]
         == Total(s.senders, SendHolds)[0] + SendHolds(x)[0]
  {
    hide Total;
    TotalUpdate(s.senders, SendHolds, t, x);
    assert (Total(SetSender(s, t, x).senders, SendHolds) + SendHolds(s.senders[t]))[0]
        == (Total(s.senders, SendHolds) + SendHolds(x))[0];
  }

  /** Senders do not mind a phase change that does not start from Handed. */
  lemma SendersKeep(s: State, r: State)
    requires SendersFit(s) && r.senders == s.senders && r.cases == s.cases && |r.subs| >= |s.subs|
    requires forall k :: 0 <= k < |s.subs| && s.subs[k].phase.Handed? ==> r.subs[k].phase.Handed?
    ensures SendersFit(r)
  {
  }

  /** Only idle and finished senders: nobody minds. */
  lemma IdleSendersFit(s: State, r: State)
    requires SendersFit(s) && r.senders == s.senders
    requires forall t :: 0 <= t < |s.senders| ==> s.senders[t].Calling? || s.senders[t].Returned?
    ensures SendersFit(r)
  {
  }

  /** One sender moves, the others being idle or finished. */
  lemma OneSenderMoves(s: State, r: State, t: nat)
    requires SendersFit(s) && t < |s.senders| && |r.senders| == |s.senders| && SenderFits(r, r.senders[t])
    requires forall u :: 0 <= u < |s.senders| && u != t ==>
               r.senders[u] == s.senders[u] && (s.senders[u].Calling? || s.senders[u].Returned?)
    ensures SendersFit(r)
  {
  }

  // ---------- the steps ----------

  lemma InitInv()
    ensures Inv(Init())
  {
  }

  lemma SubscribeKeeps(s: State, c: Chan)
    requires Inv(s)
    ensures Inv(Next(s, Subscribe(c)))
  {
    hide Total;
    var x := Subscription(c, Active);
    TotalAppend(s.subs, Present, x);
    TotalAppend(s.subs, Missed, x);
    TotalAppend(s.subs, SubHolds, x);
    SendersKeep(s, Next(s, Subscribe(c)));
  }

  lemma BeginKeeps(s: State, k: nat)
    requires Inv(s) && Enabled(s, BeginUnsubscribe(k))
    ensures Inv(Next(s, BeginUnsubscribe(k)))
  {
    hide Total;
    PhaseTotals(s, k, Checking);
    SendersKeep(s, Next(s, BeginUnsubscribe(k)));
  }

  /** A removal that misses the inbox: all its channel's entries are in sendCases. */
  lemma InboxMissKeeps(s: State, k: nat)
    requires Inv(s) && SubIn(s, k, Checking) && Sub(s.subs[k].chan) !in Cases(s.inbox)
    ensures Inv(SetPhase(s, k, Waiting))
  {
    hide Total, Find;
    var c := s.subs[k].chan;
    var r := SetPhase(s, k, Waiting);
    PhaseTotals(s, k, Waiting);
    NotInInbox(s.inbox, c);
    MissedIsPresent(r.subs, c);
    forall d: Chan
      ensures Total(r.subs, Missed)[d] <= ChansOf(s.cases)[d]
    {
      if d == c {
        assert (multiset(s.inbox) + ChansOf(s.cases))[c] == Total(r.subs, Present)[c];
      } else {
        assert (Total(r.subs, Missed) + multiset{})[d] == (Total(s.subs, Missed) + multiset{c})[d];
      }
    }
    SendersKeep(s, r);
  }

  lemma InboxHitKeeps(s: State, k: nat, i: nat)
    requires Inv(s) && SubIn(s, k, Checking) && i < |s.inbox| && s.inbox[i] == s.subs[k].chan
    ensures Inv(SetPhase(s, k, Gone).(inbox := Delete(s.inbox, i)))
  {
    hide Total, Find;
    var c := s.subs[k].chan;
    var r := SetPhase(s, k, Gone).(inbox := Delete(s.inbox, i));
    PhaseTotals(s, k, Gone);
    DeleteKeepsOthers(s.inbox, i);
    Cancel(multiset(r.inbox) + ChansOf(s.cases), Total(r.subs, Present), multiset{c}, multiset{c});
    SendersKeep(s, r);
  }

  lemma CheckInboxKeeps(s: State, k: nat)
    requires Inv(s) && Enabled(s, CheckInbox(k))
    ensures Inv(Next(s, CheckInbox(k)))
  {
    hide Total, Inv;
    var i := FindChan(s.inbox, s.subs[k].chan);
    if i == -1 {
      InboxMissKeeps(s, k);
    } else {
      assert Cases(s.inbox)[i] == Sub(s.inbox[i]);
      InboxHitKeeps(s, k, i);
    }
  }

  lemma NotInInbox(inbox: seq<Chan>, c: Chan)
    requires Sub(c) !in Cases(inbox)
    ensures multiset(inbox)[c] == 0
  {
  }

  /** Missed removals are among the subscriptions present. */
  lemma {:induction false} MissedIsPresent(subs: seq<Subscription>, c: Chan)
    ensures Total(subs, Missed)[c] <= Total(subs, Present)[c]
    decreases |subs|
  {
    if subs != [] {
      MissedIsPresent(subs[..|subs| - 1], c);
    }
  }

  lemma TakeTokenKeeps(s: State, k: nat)
    requires Inv(s) && Enabled(s, TakeToken(k))
    ensures Inv(Next(s, TakeToken(k)))
  {
    hide Total;
    PhaseTotals(s, k, Holding);
    SendersKeep(s, Next(s, TakeToken(k)));
  }

  /** A channel that some removal missed the inbox for is found. */
  lemma MissedIsFound(s: State, k: nat)
    requires Inv(s) && k < |s.subs| && Missed(s.subs[k]) == multiset{s.subs[k].chan}
    ensures Find(s.cases, s.subs[k].chan) > 0
  {
    hide Total;
    var c := s.subs[k].chan;
    TotalHas(s.subs, Missed, k);
    assert c in ChansOf(s.cases);
    InCases(s.cases, c);
  }

  lemma {:induction false} InCases(cs: seq<Case>, c: Chan)
    requires c in ChansOf(cs)
    ensures Sub(c) in cs
    decreases |cs|
  {
    if c in ChansOf(cs[..|cs| - 1]) {
      InCases(cs[..|cs| - 1], c);
    } else {
      assert cs[|cs| - 1] == Sub(c);
    }
  }

  /** Deleting a subscription's entry and its presence together. */
  lemma DeletePresent(s: State, k: nat, p: Phase)
    requires Inv(s) && k < |s.subs| && Missed(s.subs[k]) == multiset{s.subs[k].chan}
    requires p == Yielding || p == Gone
    ensures var i := Find(s.cases, s.subs[k].chan);
            && i > 0
            && var r := SetPhase(s, k, p).(cases := Delete(s.cases, i));
            EntriesMatch(r) && MissedAreInCases(r) && HeadFirst(r.cases)
  {
    hide Total, Find;
    MissedIsFound(s, k);
    var c := s.subs[k].chan;
    var i := Find(s.cases, c);
    var r := SetPhase(s, k, p).(cases := Delete(s.cases, i));
    PhaseTotals(s, k, p);
    DeleteTotals(s.cases, 0, i);
    var cs, cs' := ChansOf(s.cases), ChansOf(r.cases);
    assert cs' + multiset{c} == cs;
    Cancel(multiset(s.inbox) + cs', Total(r.subs, Present), multiset{c}, multiset{c});
    forall d: Chan
      ensures Total(r.subs, Missed)[d] <= cs'[d]
    {
      assert (Total(r.subs, Missed) + multiset{c})[d] == Total(s.subs, Missed)[d] <= cs[d];
      assert (cs' + multiset{c})[d] == cs[d];
    }
    assert r.cases[1..] == s.cases[1..][..i - 1] + s.cases[1..][i..];
  }

  lemma DeleteHeldKeeps(s: State, k: nat)
    requires Inv(s) && Enabled(s, DeleteHeld(k))
    ensures Inv(Next(s, DeleteHeld(k)))
  {
    hide Total, Find;
    DeletePresent(s, k, Yielding);
    PhaseTotals(s, k, Yielding);
    TokenWithSub(s, k);
    IdleSendersFit(s, Next(s, DeleteHeld(k)));
  }

  lemma GiveBackKeeps(s: State, k: nat)
    requires Inv(s) && Enabled(s, GiveBack(k))
    ensures Inv(Next(s, GiveBack(k)))
  {
    hide Total;
    PhaseTotals(s, k, Gone);
    TokenWithSub(s, k);
    SendersKeep(s, Next(s, GiveBack(k)));
  }

  lemma CallSendKeeps(s: State)
    requires Inv(s)
    ensures Inv(Next(s, CallSend))
  {
    hide Total;
    TotalAppend(s.senders, SendHolds, Calling);
    var r := Next(s, CallSend);
    forall t | 0 <= t < |r.senders|
      ensures SenderFits(r, r.senders[t])
    {
      if t < |s.senders| {
        assert SenderFits(s, s.senders[t]);
      }
    }
  }

  lemma LockKeeps(s: State, t: nat)
    requires Inv(s) && Enabled(s, Lock(t))
    ensures Inv(Next(s, Lock(t)))
  {
    hide Total;
    SenderTotals(s, t, Merging);
    TokenFree(s);
    OneSenderMoves(s, Next(s, Lock(t)), t);
  }

  lemma MergeKeeps(s: State, t: nat, ok: bool)
    requires Inv(s) && Enabled(s, Merge(t, ok))
    ensures Inv(Next(s, Merge(t, ok)))
  {
    hide Total;
    var r := Next(s, Merge(t, ok));
    TokenWithSend(s, t);
    SenderTotals(s, t, r.senders[t]);
    TotalConcat(s.cases, Cases(s.inbox), ChanOf);
    TotalCases(s.inbox);
    assert r.cases[..|r.cases|] == r.cases && r.cases[|r.cases|..] == [];
    TotalNone(ChanOf);
    assert r.cases[1..] == s.cases[1..] + Cases(s.inbox);
    OneSenderMoves(s, r, t);
  }

  lemma TotalNone<X>(w: X -> multiset<nat>)
    ensures Total([], w) == multiset{}
  {
  }

  /** Serving entry i, by TrySend or by Select. */
  lemma ServeKeeps(s: State, r: State, t: nat, i: nat, m: nat, log: Log)
    requires Inv(s) && t < |s.senders| && (s.senders[t].Trying? || s.senders[t].Selecting?)
    requires LogFits(s.cases, m, log) && 0 < i < m <= |s.cases|
    requires var log' := log.(delivered := log.delivered + ChanAt(s.cases, i));
             && t < |r.senders| && r.senders[t].Trying? && r.senders[t] == Trying(r.senders[t].i, m - 1, log') && r.senders[t].i >= 1
             && r == SetSender(s, t, r.senders[t]).(cases := Deactivate(s.cases, m, i))
    ensures Inv(r)
  {
    hide Total, ChansOf, LogFits;
    SenderTotals(s, t, r.senders[t]);
    ServedCases(s.cases, m, i);
    ServedLog(s.cases, m, i, log);
    ServeSenders(s, r, t);
  }

  lemma ServedCases(cs: seq<Case>, m: nat, i: nat)
    requires HeadFirst(cs) && 0 < i < m <= |cs|
    ensures cs[i].Sub? && HeadFirst(Deactivate(cs, m, i)) && ChansOf(Deactivate(cs, m, i)) == ChansOf(cs)
  {
    hide Total;
    DeactivateTotals(cs, m, i);
  }

  lemma ServeSenders(s: State, r: State, t: nat)
    requires Inv(s) && t < |s.senders| && (s.senders[t].Trying? || s.senders[t].Selecting?)
    requires t < |r.senders| && r == SetSender(s, t, r.senders[t]).(cases := r.cases) && SenderFits(r, r.senders[t])
    ensures SendersFit(r)
  {
    hide Total, SenderFits;
    TokenWithSend(s, t);
    OneSenderMoves(s, r, t);
  }

  lemma ServedLog(cs: seq<Case>, m: nat, i: nat, log: Log)
    requires LogFits(cs, m, log) && 0 < i < m && cs[i].Sub?
    ensures LogFits(Deactivate(cs, m, i), m - 1, log.(delivered := log.delivered + ChanAt(cs, i)))
  {
    hide Total;
    DeactivateTotals(cs, m, i);
    var c := cs[i].chan;
    assert ChanAt(cs, i) == [c] && ChanOf(cs[i]) == multiset{c};
    assert multiset(log.delivered + [c]) == multiset(log.delivered) + multiset{c};
  }

  lemma TrySendKeeps(s: State, t: nat, ok: bool)
    requires Inv(s) && Enabled(s, TrySend(t, ok))
    ensures Inv(Next(s, TrySend(t, ok)))
  {
    hide Total;
    var x, r := s.senders[t], Next(s, TrySend(t, ok));
    assert SenderFits(s, x);
    if ok {
      ServeKeeps(s, r, t, x.i, x.m, x.log);
    } else {
      TokenWithSend(s, t);
      SenderTotals(s, t, r.senders[t]);
      OneSenderMoves(s, r, t);
    }
  }

  lemma ChooseKeeps(s: State, t: nat, i: nat)
    requires Inv(s) && Enabled(s, Choose(t, i))
    ensures Inv(Next(s, Choose(t, i)))
  {
    hide Total;
    assert SenderFits(s, s.senders[t]);
    ServeKeeps(s, Next(s, Choose(t, i)), t, i, s.senders[t].m, s.senders[t].log);
  }

  lemma EndTryingKeeps(s: State, t: nat)
    requires Inv(s) && Enabled(s, EndTrying(t))
    ensures Inv(Next(s, EndTrying(t)))
  {
    hide Total;
    var x, r := s.senders[t], Next(s, EndTrying(t));
    assert SenderFits(s, x);
    if x.m == 1 {
      OnlyHead(s.cases);
    }
    TokenWithSend(s, t);
    SenderTotals(s, t, r.senders[t]);
    OneSenderMoves(s, r, t);
  }

  /** With only the removeSub case left, nothing remains to be served. */
  lemma OnlyHead(cases: seq<Case>)
    requires HeadFirst(cases)
    ensures ChansOf(cases[..1]) == multiset{}
  {
    assert cases[..1] == [RemoveSub];
    TotalOne(RemoveSub, ChanOf);
  }

  lemma HandOverKeeps(s: State, t: nat, k: nat)
    requires Inv(s) && Enabled(s, HandOver(t, k))
    ensures Inv(Next(s, HandOver(t, k)))
  {
    hide Total;
    var r := Next(s, HandOver(t, k));
    PhaseTotals(s, k, Handed);
    HolderStays(s, r, t, k, Handed, r.senders[t]);
    HandOverSenders(s, t, k);
  }

  lemma HandOverSenders(s: State, t: nat, k: nat)
    requires Inv(s) && Enabled(s, HandOver(t, k))
    ensures SendersFit(Next(s, HandOver(t, k)))
  {
    hide Total;
    assert SenderFits(s, s.senders[t]);
    TokenWithSend(s, t);
    OneSenderMoves(s, Next(s, HandOver(t, k)), t);
  }

  lemma DeleteHandedKeeps(s: State, t: nat)
    requires Inv(s) && Enabled(s, DeleteHanded(t))
    ensures Inv(Next(s, DeleteHanded(t)))
  {
    hide Total, Find;
    var x, r := s.senders[t], Next(s, DeleteHanded(t));
    DeletePresent(s, x.sub, Gone);
    HandedToken(s, t);
    HandedSenders(s, t);
  }

  lemma HandedToken(s: State, t: nat)
    requires Inv(s) && Enabled(s, DeleteHanded(t))
    ensures OneToken(Next(s, DeleteHanded(t)))
  {
    hide Total, Find, Delete, ChansOf, EntriesMatch, MissedAreInCases, HeadFirst;
    var x, r := s.senders[t], Next(s, DeleteHanded(t));
    assert SenderFits(s, x);
    HolderStays(s, r, t, x.sub, Gone, r.senders[t]);
  }

  /** The token does not move when a removal without it and a Send change state. */
  lemma HolderStays(s: State, r: State, t: nat, k: nat, p: Phase, x: Sender)
    requires OneToken(s) && t < |s.senders| && k < |s.subs|
    requires SendHolds(s.senders[t]) == SendHolds(x) && SubHolds(s.subs[k]) == SubHolds(s.subs[k].(phase := p))
    requires r.tokens == s.tokens && r.subs == SetPhase(s, k, p).subs && r.senders == SetSender(s, t, x).senders
    ensures OneToken(r)
  {
    hide Total;
    PhaseTotals(s, k, p);
    SenderTotals(s, t, x);
  }

  lemma HandedSenders(s: State, t: nat)
    requires Inv(s) && Enabled(s, DeleteHanded(t))
    ensures SendersFit(Next(s, DeleteHanded(t)))
  {
    hide Total, Find;
    var x, r := s.senders[t], Next(s, DeleteHanded(t));
    assert SenderFits(s, x);
    TokenWithSend(s, t);
    MissedIsFound(s, x.sub);
    DroppedLog(s.cases, x.m, Find(s.cases, s.subs[x.sub].chan), x.log);
    OneSenderMoves(s, r, t);
  }

  lemma DroppedLog(cs: seq<Case>, m: nat, i: nat, log: Log)
    requires LogFits(cs, m, log) && 0 < i < |cs| && cs[i].Sub?
    ensures var c := multiset{cs[i].chan};
            if i < m then LogFits(Delete(cs, i), m - 1, log.(dropped := log.dropped + c))
            else LogFits(Delete(cs, i), m, log.(late := log.late + c))
  {
    hide Total;
    DeleteTotals(cs, m, i);
  }

  lemma UnlockKeeps(s: State, t: nat)
    requires Inv(s) && Enabled(s, Unlock(t))
    ensures Inv(Next(s, Unlock(t)))
  {
    hide Total;
    var r := Next(s, Unlock(t));
    assert SenderFits(s, s.senders[t]);
    TokenWithSend(s, t);
    SenderTotals(s, t, r.senders[t]);
    OneSenderMoves(s, r, t);
  }

  /** Every step, of anybody. */
  lemma StepKeeps(s: State, e: Step)
    requires Inv(s) && Enabled(s, e)
    ensures Inv(Next(s, e))
  {
    hide Inv, Next, Enabled;
    match e {
      case Subscribe(c) => SubscribeKeeps(s, c);
      case BeginUnsubscribe(k) => BeginKeeps(s, k);
      case CheckInbox(k) => CheckInboxKeeps(s, k);
      case TakeToken(k) => TakeTokenKeeps(s, k);
      case DeleteHeld(k) => DeleteHeldKeeps(s, k);
      case GiveBack(k) => GiveBackKeeps(s, k);
      case CallSend => CallSendKeeps(s);
      case Lock(t) => LockKeeps(s, t);
      case Merge(t, ok) => MergeKeeps(s, t, ok);
      case TrySend(t, ok) => TrySendKeeps(s, t, ok);
      case EndTrying(t) => EndTryingKeeps(s, t);
      case Choose(t, i) => ChooseKeeps(s, t, i);
      case HandOver(t, k) => HandOverKeeps(s, t, k);
      case DeleteHanded(t) => DeleteHandedKeeps(s, t);
      case Unlock(t) => UnlockKeeps(s, t);
    }
  }
}
