/**
 The subscription protocol of event/feedof.go (and event/feed.go) as atomic steps of any number
 of subscriptions and Send calls: the inbox under its mutex, the one-token sendLock channel, and
 the rendezvous on removeSub.
 */
module FeedProtocol {
  import opened CaseLists

  /** How far a subscription is: its entry is in a list in every phase up to Handed. */
  datatype Phase =
    | Active     // subscribed
    | Checking   // Unsubscribe called, inbox not yet looked at
    | Waiting    // not in the inbox; at the select on removeSub and sendLock
    | Holding    // took the token; about to delete
    | Yielding   // deleted; about to put the token back
    | Handed     // given to a Send, which is about to delete
    | Gone

  datatype Subscription = Subscription(chan: Chan, phase: Phase)

  /** What one Send has done with the entries it started from. */
  datatype Log = Log(start: multiset<Chan>, delivered: seq<Chan>, dropped: multiset<Chan>, late: multiset<Chan>)

  datatype Sender =
    | Calling                        // before <-sendLock
    | Merging                        // holds the token
    | Trying(i: nat, m: nat, log: Log)  // the TrySend loop at cases[i], len(cases) == m
    | Selecting(m: nat, log: Log)    // blocked in reflect.Select
    | Deleting(sub: nat, m: nat, log: Log)  // received a channel on removeSub
    | Releasing(log: Log)            // about to put the token back
    | Returned(log: Log)

  datatype State = State(inbox: seq<Chan>, cases: seq<Case>, tokens: nat, subs: seq<Subscription>, senders: seq<Sender>)

  function Init(): State {
    State([], [RemoveSub], 1, [], [])
  }

  /** The sum of a weight over a list. */
  function Total<X>(xs: seq<X>, w: X -> multiset<nat>): multiset<nat> {
    if xs == [] then multiset{} else Total(xs[..|xs| - 1], w) + w(xs[|xs| - 1])
  }

  function ChansOf(cs: seq<Case>): multiset<Chan> {
    Total(cs, ChanOf)
  }

  function ChanOf(c: Case): multiset<Chan> {
    if c.Sub? then multiset{c.chan} else multiset{}
  }

  function Cases(cs: seq<Chan>): (r: seq<Case>)
    ensures |r| == |cs| && forall i :: 0 <= i < |cs| ==> r[i] == Sub(cs[i])
  {
    seq(|cs|, i requires 0 <= i < |cs| => Sub(cs[i]))
  }

  /** The first place of a channel in the inbox, or -1. */
  function FindChan(cs: seq<Chan>, c: Chan): (i: int)
    ensures -1 <= i < |cs|
    ensures i >= 0 ==> cs[i] == c && c !in cs[..i]
    ensures i == -1 <==> c !in cs
  {
    var i := Find(Cases(cs), c);
    assert i >= 0 ==> Cases(cs)[i] == Sub(cs[i]);
    assert i >= 0 ==> forall j :: 0 <= j < i ==> Cases(cs)[..i][j] == Sub(cs[j]);
    assert forall j :: 0 <= j < |cs| ==> Cases(cs)[j] == Sub(cs[j]);
    i
  }

  // ---------- the steps ----------

  datatype Step =
    | Subscribe(c: Chan)
    | BeginUnsubscribe(k: nat)
    | CheckInbox(k: nat)
    | TakeToken(k: nat)
    | DeleteHeld(k: nat)
    | GiveBack(k: nat)
    | CallSend
    | Lock(t: nat)
    | Merge(t: nat, typeOk: bool)
    | TrySend(t: nat, ok: bool)
    | EndTrying(t: nat)
    | Choose(t: nat, i: nat)
    | HandOver(t: nat, k: nat)
    | DeleteHanded(t: nat)
    | Unlock(t: nat)

  predicate SubIn(s: State, k: nat, p: Phase) {
    k < |s.subs| && s.subs[k].phase == p
  }

  predicate Enabled(s: State, e: Step) {
    match e
    case Subscribe(c) => true
    case BeginUnsubscribe(k) => SubIn(s, k, Active)
    case CheckInbox(k) => SubIn(s, k, Checking)
    case TakeToken(k) => SubIn(s, k, Waiting) && s.tokens > 0
    case DeleteHeld(k) => SubIn(s, k, Holding) && Find(s.cases, s.subs[k].chan) >= 0
    case GiveBack(k) => SubIn(s, k, Yielding) && s.tokens == 0
    case CallSend => true
    case Lock(t) => t < |s.senders| && s.senders[t].Calling? && s.tokens > 0
    case Merge(t, _) => t < |s.senders| && s.senders[t].Merging?
    case TrySend(t, _) => t < |s.senders| && s.senders[t].Trying? && s.senders[t].i < s.senders[t].m <= |s.cases|
    case EndTrying(t) => t < |s.senders| && s.senders[t].Trying? && s.senders[t].i >= s.senders[t].m
    case Choose(t, i) => t < |s.senders| && s.senders[t].Selecting? && 0 < i < s.senders[t].m <= |s.cases|
    case HandOver(t, k) => t < |s.senders| && s.senders[t].Selecting? && SubIn(s, k, Waiting)
    case DeleteHanded(t) =>
      t < |s.senders| && s.senders[t].Deleting? && s.senders[t].sub < |s.subs|
      && Find(s.cases, s.subs[s.senders[t].sub].chan) >= 0
    case Unlock(t) => t < |s.senders| && s.senders[t].Releasing? && s.tokens == 0
  }

  function SetPhase(s: State, k: nat, p: Phase): State
    requires k < |s.subs|
  {
    s.(subs := s.subs[k := s.subs[k].(phase := p)])
  }

  function SetSender(s: State, t: nat, x: Sender): State
    requires t < |s.senders|
  {
    s.(senders := s.senders[t := x])
  }

  /** The channel of an entry; the removeSub case has none. */
  function ChanAt(cs: seq<Case>, i: nat): seq<Chan>
    requires i < |cs|
  {
    if cs[i].Sub? then [cs[i].chan] else []
  }

  function Next(s: State, e: Step): State
    requires Enabled(s, e)
  {
    match e
    case Subscribe(c) => s.(inbox := s.inbox + [c], subs := s.subs + [Subscription(c, Active)])
    case BeginUnsubscribe(k) => SetPhase(s, k, Checking)
    case CheckInbox(k) =>
      var i := FindChan(s.inbox, s.subs[k].chan);
      if i == -1 then SetPhase(s, k, Waiting) else SetPhase(s, k, Gone).(inbox := Delete(s.inbox, i))
    case TakeToken(k) => SetPhase(s, k, Holding).(tokens := s.tokens - 1)
    case DeleteHeld(k) => SetPhase(s, k, Yielding).(cases := Delete(s.cases, Find(s.cases, s.subs[k].chan)))
    case GiveBack(k) => SetPhase(s, k, Gone).(tokens := s.tokens + 1)
    case CallSend => s.(senders := s.senders + [Calling])
    case Lock(t) => SetSender(s, t, Merging).(tokens := s.tokens - 1)
    case Merge(t, typeOk) =>
      var cases := s.cases + Cases(s.inbox);
      var log := Log(ChansOf(cases), [], multiset{}, multiset{});
      SetSender(s, t, if typeOk then Trying(1, |cases|, log) else Releasing(Log(multiset{}, [], multiset{}, multiset{})))
        .(cases := cases, inbox := [])
    case TrySend(t, ok) =>
      var x := s.senders[t];
      if ok then
        SetSender(s, t, Trying(x.i, x.m - 1, x.log.(delivered := x.log.delivered + ChanAt(s.cases, x.i))))
          .(cases := Deactivate(s.cases, x.m, x.i))
      else SetSender(s, t, x.(i := x.i + 1))
    case EndTrying(t) =>
      var x := s.senders[t];
      SetSender(s, t, if x.m == 1 then Releasing(x.log) else Selecting(x.m, x.log))
    case Choose(t, i) =>
      var x := s.senders[t];
      SetSender(s, t, Trying(1, x.m - 1, x.log.(delivered := x.log.delivered + ChanAt(s.cases, i))))
        .(cases := Deactivate(s.cases, x.m, i))
    case HandOver(t, k) =>
      SetPhase(SetSender(s, t, Deleting(k, s.senders[t].m, s.senders[t].log)), k, Handed)
    case DeleteHanded(t) =>
      var x := s.senders[t];
      var c := s.subs[x.sub].chan;
      var i := Find(s.cases, c);
      var y := if i < x.m
               then Trying(1, if x.m == 0 then 0 else x.m - 1, x.log.(dropped := x.log.dropped + multiset{c}))
               else Trying(1, x.m, x.log.(late := x.log.late + multiset{c}));
      SetPhase(SetSender(s, t, y), x.sub, Gone).(cases := Delete(s.cases, i))
    case Unlock(t) => SetSender(s, t, Returned(s.senders[t].log)).(tokens := s.tokens + 1)
  }

  // ---------- tallies ----------

  lemma {:induction false} TotalConcat<X>(xs: seq<X>, ys: seq<X>, w: X -> multiset<nat>)
    ensures Total(xs + ys, w) == Total(xs, w) + Total(ys, w)
    decreases |ys|
  {
    if ys == [] {
      assert xs + ys == xs;
    } else {
      var n := |ys| - 1;
      assert (xs + ys)[..|xs + ys| - 1] == xs + ys[..n];
      TotalConcat(xs, ys[..n], w);
    }
  }

  lemma TotalOne<X>(x: X, w: X -> multiset<nat>)
    ensures Total([x], w) == w(x)
  {
  }

  lemma TotalAppend<X>(xs: seq<X>, w: X -> multiset<nat>, x: X)
    ensures Total(xs + [x], w) == Total(xs, w) + w(x)
  {
  }

  lemma TotalMiddle<X>(xs: seq<X>, w: X -> multiset<nat>, x: X, ys: seq<X>)
    ensures Total(xs + [x] + ys, w) == Total(xs, w) + w(x) + Total(ys, w)
  {
    hide Total;
    TotalConcat(xs + [x], ys, w);
    TotalAppend(xs, w, x);
  }

  lemma TotalUpdate<X>(xs: seq<X>, w: X -> multiset<nat>, k: nat, x: X)
    requires k < |xs|
    ensures Total(xs[k := x], w) + w(xs[k]) == Total(xs, w) + w(x)
  {
    hide Total;
    assert xs == xs[..k] + [xs[k]] + xs[k + 1..];
    assert xs[k := x] == xs[..k] + [x] + xs[k + 1..];
    TotalMiddle(xs[..k], w, xs[k], xs[k + 1..]);
    TotalMiddle(xs[..k], w, x, xs[k + 1..]);
  }

  lemma TotalDelete<X>(xs: seq<X>, w: X -> multiset<nat>, k: nat)
    requires k < |xs|
    ensures Total(Delete(xs, k), w) + w(xs[k]) == Total(xs, w)
  {
    hide Total;
    assert xs == xs[..k] + [xs[k]] + xs[k + 1..];
    TotalMiddle(xs[..k], w, xs[k], xs[k + 1..]);
    TotalConcat(xs[..k], xs[k + 1..], w);
  }

  /** Two different entries weigh no more than the whole. */
  lemma TotalHasTwo<X>(xs: seq<X>, w: X -> multiset<nat>, j: nat, k: nat)
    requires j < k < |xs|
    ensures w(xs[j]) + w(xs[k]) <= Total(xs, w)
  {
    hide Total;
    TotalDelete(xs, w, k);
    assert Delete(xs, k)[j] == xs[j];
    TotalDelete(Delete(xs, k), w, j);
  }

  lemma TotalHas<X>(xs: seq<X>, w: X -> multiset<nat>, k: nat)
    requires k < |xs|
    ensures w(xs[k]) <= Total(xs, w)
  {
  }

  lemma {:induction false} TotalCases(cs: seq<Chan>)
    ensures ChansOf(Cases(cs)) == multiset(cs)
    decreases |cs|
  {
    if cs != [] {
      var n := |cs| - 1;
      assert Cases(cs)[..n] == Cases(cs[..n]);
      TotalCases(cs[..n]);
      assert cs == cs[..n] + [cs[n]];
    }
  }

  /** Serving entry i: the active part loses its channel and the rest gains it. */
  lemma DeactivateTotals(cs: seq<Case>, m: nat, i: nat)
    requires i < m <= |cs|
    ensures var r := Deactivate(cs, m, i);
            && ChansOf(r[..m - 1]) + ChanOf(cs[i]) == ChansOf(cs[..m])
            && ChansOf(r[m - 1..]) == ChanOf(cs[i]) + ChansOf(cs[m..])
            && ChansOf(r) == ChansOf(cs)
  {
    hide Total;
    var r := Deactivate(cs, m, i);
    assert r[m - 1..] == [cs[i]] + cs[m..];
    TotalConcat([cs[i]], cs[m..], ChanOf);
    TotalOne(cs[i], ChanOf);
    assert cs[..m] == cs[..m - 1] + [cs[m - 1]];
    TotalAppend(cs[..m - 1], ChanOf, cs[m - 1]);
    if i < m - 1 {
      assert r[..m - 1] == cs[..m - 1][i := cs[m - 1]];
      TotalUpdate(cs[..m - 1], ChanOf, i, cs[m - 1]);
    } else {
      assert r[..m - 1] == cs[..m - 1];
    }
    assert cs == cs[..m] + cs[m..] && r == r[..m - 1] + r[m - 1..];
    TotalConcat(cs[..m], cs[m..], ChanOf);
    TotalConcat(r[..m - 1], r[m - 1..], ChanOf);
  }

  /** Deleting entry i of a list split at m. */
  lemma DeleteTotals(cs: seq<Case>, m: nat, i: nat)
    requires i < |cs| && m <= |cs|
    ensures var r := Delete(cs, i);
            && ChansOf(r) + ChanOf(cs[i]) == ChansOf(cs)
            && (i < m ==> ChansOf(r[..m - 1]) + ChanOf(cs[i]) == ChansOf(cs[..m]) && r[m - 1..] == cs[m..])
            && (i >= m ==> r[..m] == cs[..m] && ChansOf(r[m..]) + ChanOf(cs[i]) == ChansOf(cs[m..]))
  {
    hide Total;
    TotalDelete(cs, ChanOf, i);
    var r := Delete(cs, i);
    if i < m {
      assert r[..m - 1] == Delete(cs[..m], i) && cs[..m][i] == cs[i];
      TotalDelete(cs[..m], ChanOf, i);
    } else {
      assert r[m..] == Delete(cs[m..], i - m) && cs[m..][i - m] == cs[i];
      TotalDelete(cs[m..], ChanOf, i - m);
    }
  }

  /** Channels whose entry is still in a list. */
  ghost function Present(x: Subscription): multiset<Chan> {
    if x.phase.Yielding? || x.phase.Gone? then multiset{} else multiset{x.chan}
  }

  /** Channels whose removal has missed the inbox and not yet deleted. */
  ghost function Missed(x: Subscription): multiset<Chan> {
    if x.phase.Waiting? || x.phase.Holding? || x.phase.Handed? then multiset{x.chan} else multiset{}
  }

  /** Holders of the token, each counted as a 0. */
  ghost function SubHolds(x: Subscription): multiset<Chan> {
    if x.phase.Holding? || x.phase.Yielding? then multiset{0} else multiset{}
  }

  ghost function SendHolds(x: Sender): multiset<Chan> {
    if x.Calling? || x.Returned? then multiset{} else multiset{0}
  }

  // ---------- the invariant ----------

  /** Every entry is a subscription not yet removed, and conversely, with multiplicities. */
  ghost predicate EntriesMatch(s: State) {
    multiset(s.inbox) + ChansOf(s.cases) == Total(s.subs, Present)
  }

  /** What a removal looks for after missing the inbox is in sendCases, once for each such removal. */
  ghost predicate MissedAreInCases(s: State) {
    Total(s.subs, Missed) <= ChansOf(s.cases)
  }

  /** The token is in the channel, or with exactly one holder. */
  ghost predicate OneToken(s: State) {
    s.tokens + Total(s.subs, SubHolds)[0] + Total(s.senders, SendHolds)[0] == 1
  }

  /** The removeSub case comes first and only there. */
  ghost predicate HeadFirst(cases: seq<Case>) {
    cases != [] && cases[0] == RemoveSub && forall i :: 0 < i < |cases| ==> cases[i].Sub?
  }

  /** What a Send has served, what it still serves, and what was removed make up what it started from. */
  ghost predicate LogFits(cases: seq<Case>, m: nat, log: Log) {
    && 1 <= m <= |cases|
    && ChansOf(cases[..m]) + multiset(log.delivered) + log.dropped == log.start
    && ChansOf(cases[m..]) + log.late == multiset(log.delivered)
  }

  ghost predicate SenderFits(s: State, x: Sender) {
    match x
    case Trying(i, m, log) => i >= 1 && LogFits(s.cases, m, log)
    case Selecting(m, log) => LogFits(s.cases, m, log)
    case Deleting(k, m, log) => LogFits(s.cases, m, log) && SubIn(s, k, Handed)
    case Releasing(log) => multiset(log.delivered) + log.dropped == log.start
    case Returned(log) => multiset(log.delivered) + log.dropped == log.start
    case _ => true
  }

  ghost predicate SendersFit(s: State) {
    forall t :: 0 <= t < |s.senders| ==> SenderFits(s, s.senders[t])
  }

  ghost predicate Inv(s: State) {
    EntriesMatch(s) && MissedAreInCases(s) && OneToken(s) && HeadFirst(s.cases) && SendersFit(s)
  }
}
