/**
 event/feedof.go in place: sendCases is a Go slice over an array, and cases, inside Send, is a
 shorter slice over the same array. What the receivers and other goroutines do, that is, which
 sends succeed at once, what select chooses, and which removals arrive, is a parameter of Send, and
 whatever it is, Send takes the steps of FeedProtocol one by one.
 */
module FeedOfModel {
  import opened Wrappers
  import opened CaseLists
  import opened FeedProtocol
  import opened FeedInvariant

  /** A reflect.SelectCase: its channel and direction, and its Send value. */
  datatype Slot<T> = Slot(cas: Case, send: Option<T>)

  datatype Slice<T> = Slice(arr: array<Slot<T>>, len: nat)

  function CasesOf<T>(s: seq<Slot<T>>): (r: seq<Case>)
    ensures |r| == |s|
    ensures forall i :: 0 <= i < |s| ==> r[i] == s[i].cas
  {
    seq(|s|, i requires 0 <= i < |s| => s[i].cas)
  }

  lemma CasesOfDelete<T>(s: seq<Slot<T>>, i: nat)
    requires i < |s|
    ensures CasesOf(Delete(s, i)) == Delete(CasesOf(s), i)
  {
  }

  lemma CasesOfDeactivate<T>(s: seq<Slot<T>>, m: nat, i: nat)
    requires i < m <= |s|
    ensures CasesOf(Deactivate(s, m, i)) == Deactivate(CasesOf(s), m, i)
  {
  }

  /** caseList.find */
  method FindIn<T>(s: Slice<T>, c: Chan) returns (i: int)
    requires s.len <= s.arr.Length
    ensures i == Find(CasesOf(s.arr[..s.len]), c)
  {
    ghost var cs := CasesOf(s.arr[..s.len]);
    i := 0;
    while i < s.len
      invariant 0 <= i <= s.len
      invariant Sub(c) !in cs[..i]
    {
      if s.arr[i].cas == Sub(c) {
        assert cs[i] == Sub(c);
        return i;
      }
      assert cs[..i + 1] == cs[..i] + [cs[i]];
      i := i + 1;
    }
    assert cs[..i] == cs;
    i := -1;
  }

  /** caseList.delete: append(cs[:index], cs[index+1:]...), which moves the tail down in the same array. */
  method DeleteFrom<T>(s: Slice<T>, i: nat) returns (r: Slice<T>)
    requires i < s.len <= s.arr.Length
    modifies s.arr
    ensures r == Slice(s.arr, s.len - 1)
    ensures s.arr[..r.len] == Delete(old(s.arr[..s.len]), i)
    ensures s.arr[r.len..] == old(s.arr[r.len..])
  {
    var j := i;
    while j + 1 < s.len
      invariant i <= j < s.len
      invariant forall k :: 0 <= k < i || j <= k < s.arr.Length ==> s.arr[k] == old(s.arr[k])
      invariant forall k :: i <= k < j ==> s.arr[k] == old(s.arr[k + 1])
    {
      s.arr[j] := s.arr[j + 1];
      j := j + 1;
    }
    r := Slice(s.arr, s.len - 1);
  }

  /** caseList.deactivate */
  method DeactivateIn<T>(s: Slice<T>, i: nat) returns (r: Slice<T>)
    requires i < s.len <= s.arr.Length
    modifies s.arr
    ensures r == Slice(s.arr, s.len - 1)
    ensures s.arr[..] == Deactivate(old(s.arr[..]), s.len, i)
  {
    var last := s.len - 1;
    s.arr[i], s.arr[last] := s.arr[last], s.arr[i];
    r := Slice(s.arr, last);
  }

  /** append(s, inbox...): in place when the array is long enough, otherwise in a longer one. */
  method AppendTo<T>(s: Slice<T>, inbox: seq<Chan>) returns (r: Slice<T>)
    requires s.len <= s.arr.Length
    modifies s.arr
    ensures r.len == s.len + |inbox| <= r.arr.Length
    ensures if s.len + |inbox| <= s.arr.Length then r.arr == s.arr else fresh(r.arr)
    ensures r.arr[..s.len] == old(s.arr[..s.len])
    ensures forall k :: s.len <= k < r.len ==> r.arr[k] == Slot(Sub(inbox[k - s.len]), None)
  {
    var a := s.arr;
    if s.len + |inbox| > s.arr.Length {
      var cap: nat :| s.len + |inbox| <= cap;
      a := new Slot<T>[cap](i => Slot(RemoveSub, None));
      for j := 0 to s.len
        invariant a.Length == cap && fresh(a)
        invariant forall k :: 0 <= k < j ==> a[k] == s.arr[k]
        invariant s.arr[..] == old(s.arr[..])
      {
        a[j] := s.arr[j];
      }
    }
    label Copied:
    for j := 0 to |inbox|
      invariant forall k :: 0 <= k < s.len ==> a[k] == old@Copied(a[k])
      invariant forall k :: 0 <= k < j ==> a[s.len + k] == Slot(Sub(inbox[k]), None)
    {
      a[s.len + j] := Slot(Sub(inbox[j]), None);
    }
    r := Slice(a, s.len + |inbox|);
    assert forall k :: s.len <= k < r.len ==> r.arr[k] == r.arr[s.len + (k - s.len)];
  }

  /** f.sendCases[i].Send = x for every subscriber. */
  method SetSend<T>(s: Slice<T>, x: Option<T>)
    requires 1 <= s.len <= s.arr.Length
    modifies s.arr
    ensures CasesOf(s.arr[..s.len]) == CasesOf(old(s.arr[..s.len]))
    ensures forall k :: 1 <= k < s.len ==> s.arr[k].send == x
    ensures s.arr[0] == old(s.arr[0])
  {
    var i := 1;
    while i < s.len
      invariant 1 <= i <= s.len
      invariant forall k :: 0 <= k < s.len ==> s.arr[k].cas == old(s.arr[k].cas)
      invariant forall k :: 1 <= k < i ==> s.arr[k].send == x
      invariant s.arr[0] == old(s.arr[0])
    {
      s.arr[i] := s.arr[i].(send := x);
      i := i + 1;
    }
  }

  /** Where a Send stands: the log so far, and every subscriber's case ready to send value. */
  ghost predicate Fits<T>(slots: seq<Slot<T>>, m: nat, value: T, log: Log) {
    && HeadFirst(CasesOf(slots))
    && (forall k :: 1 <= k < |slots| ==> slots[k].send == Some(value))
    && LogFits(CasesOf(slots), m, log)
  }

  lemma Served<T>(slots: seq<Slot<T>>, m: nat, i: nat, value: T, log: Log)
    requires Fits(slots, m, value, log) && 0 < i < m
    ensures slots[i].cas.Sub?
    ensures Fits(Deactivate(slots, m, i), m - 1, value, log.(delivered := log.delivered + [slots[i].cas.chan]))
  {
    hide ChansOf;
    var cs := CasesOf(slots);
    assert cs[i].Sub? && cs[m - 1].Sub?;
    CasesOfDeactivate(slots, m, i);
    ServedLog(cs, m, i, log);
  }

  lemma Removed<T>(slots: seq<Slot<T>>, m: nat, i: nat, value: T, log: Log)
    requires Fits(slots, m, value, log) && 0 < i < |slots|
    ensures slots[i].cas.Sub?
    ensures var c := multiset{slots[i].cas.chan};
            Fits(Delete(slots, i), if i < m then m - 1 else m, value,
                 if i < m then log.(dropped := log.dropped + c) else log.(late := log.late + c))
  {
    hide ChansOf;
    var cs := CasesOf(slots);
    assert cs[i].Sub?;
    CasesOfDelete(slots, i);
    DroppedLog(cs, m, i, log);
  }

  /** What was handed to receivers, with the channel of each. */
  type Deliveries<T> = seq<(Chan, T)>

  function To<T>(d: Deliveries<T>): (r: seq<Chan>)
    ensures |r| == |d|
  {
    seq(|d|, i requires 0 <= i < |d| => d[i].0)
  }

  lemma ToAppend<T>(d: Deliveries<T>, c: Chan, v: T)
    ensures To(d + [(c, v)]) == To(d) + [c]
  {
  }

  // ---------- a Send as steps of the protocol ----------

  /**
   What the world does when it is asked: whether the receiver takes the value at once, which case
   select chooses, and which entry's removal arrives if it is the removeSub case.
   */
  datatype Luck = Luck(ready: bool, chosen: nat, entry: nat)

  /** Where a Send stands, seen from the protocol. */
  datatype Stand = Stand(cases: seq<Case>, sender: Sender)

  datatype Act = Try(ok: bool) | End | Pick(i: nat) | Drop(c: Chan)

  /** The protocol's state with this Send alone, which has the token, and these subscriptions. */
  function World(p: Stand, subs: seq<Subscription>): State {
    State([], p.cases, 0, subs, [p.sender])
  }

  function StandIn(s: State): Stand
    requires |s.senders| == 1
  {
    Stand(s.cases, s.senders[0])
  }

  /** The step of the protocol is enabled; a removal takes two, with a subscription waiting for it. */
  predicate CanDo(p: Stand, a: Act) {
    match a
    case Try(ok) => Enabled(World(p, []), TrySend(0, ok))
    case End => Enabled(World(p, []), EndTrying(0))
    case Pick(i) => Enabled(World(p, []), Choose(0, i))
    case Drop(c) =>
      var w := World(p, [Subscription(c, Waiting)]);
      Enabled(w, HandOver(0, 0)) && Enabled(Next(w, HandOver(0, 0)), DeleteHanded(0))
  }

  function Do(p: Stand, a: Act): Stand
    requires CanDo(p, a)
  {
    match a
    case Try(ok) => StandIn(Next(World(p, []), TrySend(0, ok)))
    case End => StandIn(Next(World(p, []), EndTrying(0)))
    case Pick(i) => StandIn(Next(World(p, []), Choose(0, i)))
    case Drop(c) => StandIn(Next(Next(World(p, [Subscription(c, Waiting)]), HandOver(0, 0)), DeleteHanded(0)))
  }

  /** What comes next, given what the world does. */
  function Answer(p: Stand, luck: Luck): Act {
    match p.sender
    case Trying(i, m, _) => if i < m then Try(luck.ready) else End
    case Selecting(m, _) =>
      var i := if m > 0 then luck.chosen % m else 0;
      if i == 0 then Drop(ChanOfEntry(p.cases, luck.entry)) else Pick(i)
    case _ => End
  }

  /** A subscriber's channel in sendCases. */
  function ChanOfEntry(cases: seq<Case>, entry: nat): Chan {
    if |cases| < 2 then 0
    else match cases[1 + entry % (|cases| - 1)]
      case Sub(c) => c
      case RemoveSub => 0
  }

  /** Acts number a to b - 1, from p on. */
  function Play(p: Stand, env: nat -> Luck, a: nat, b: nat): Stand
    decreases b
  {
    if b <= a then p
    else
      var q := Play(p, env, a, b - 1);
      var act := Answer(q, env(b - 1));
      if CanDo(q, act) then Do(q, act) else q
  }

  /** Each of them is enabled in the protocol. */
  predicate Plays(p: Stand, env: nat -> Luck, a: nat, b: nat)
    decreases b
  {
    b <= a || (Plays(p, env, a, b - 1)
               && CanDo(Play(p, env, a, b - 1), Answer(Play(p, env, a, b - 1), env(b - 1))))
  }

  /** Where a Send starts once it has the token. */
  function Start(held: seq<Case>, inbox: seq<Chan>): Stand {
    StandIn(Next(State(inbox, held, 0, [], [Merging]), Merge(0, true)))
  }

  lemma PlayNothing(p: Stand, env: nat -> Luck, a: nat)
    ensures Play(p, env, a, a) == p && Plays(p, env, a, a)
  {
  }

  lemma PlayOne(p: Stand, env: nat -> Luck, a: nat, n: nat)
    requires a <= n
    ensures var q := Play(p, env, a, n);
            var act := Answer(q, env(n));
            Plays(p, env, a, n) && CanDo(q, act) ==> Plays(p, env, a, n + 1) && Play(p, env, a, n + 1) == Do(q, act)
  {
    hide CanDo, Do, Answer;
  }

  lemma {:induction false} PlayOn(p: Stand, env: nat -> Luck, a: nat, b: nat, c: nat)
    requires a <= b <= c && Plays(p, env, a, b) && Plays(Play(p, env, a, b), env, b, c)
    ensures Plays(p, env, a, c) && Play(p, env, a, c) == Play(Play(p, env, a, b), env, b, c)
    decreases c
  {
    hide CanDo, Do, Answer;
    if b < c {
      PlayOn(p, env, a, b, c - 1);
    }
  }

  lemma FitsBounds<T>(slots: seq<Slot<T>>, m: nat, value: T, log: Log)
    requires Fits(slots, m, value, log)
    ensures 1 <= m <= |slots| && slots[0].cas == RemoveSub && HeadFirst(CasesOf(slots))
  {
  }

  /** A turn of the inner loop is the protocol's TrySend. */
  lemma TriesOne<T>(slots: seq<Slot<T>>, i: nat, m: nat, value: T, log: Log, luck: Luck)
    requires Fits(slots, m, value, log) && 0 < i < m
    ensures var p := Stand(CasesOf(slots), Trying(i, m, log));
            var act := Answer(p, luck);
            && CanDo(p, act)
            && Do(p, act) == if luck.ready
                 then Stand(CasesOf(Deactivate(slots, m, i)),
                            Trying(i, m - 1, log.(delivered := log.delivered + [slots[i].cas.chan])))
                 else Stand(CasesOf(slots), Trying(i + 1, m, log))
  {
    hide ChansOf;
    CasesOfDeactivate(slots, m, i);
    assert CasesOf(slots)[i].Sub?;
  }

  /** The loop is over. */
  lemma EndsLoop<T>(slots: seq<Slot<T>>, m: nat, log: Log, luck: Luck)
    ensures var p := Stand(CasesOf(slots), Trying(m, m, log));
            CanDo(p, Answer(p, luck))
            && Do(p, Answer(p, luck)) == Stand(CasesOf(slots), if m == 1 then Releasing(log) else Selecting(m, log))
  {
  }

  /** The select serves the case chosen. */
  lemma PicksOne<T>(slots: seq<Slot<T>>, m: nat, value: T, log: Log, luck: Luck)
    requires Fits(slots, m, value, log) && m > 1 && luck.chosen % m > 0
    ensures var p, i := Stand(CasesOf(slots), Selecting(m, log)), luck.chosen % m;
            && i < m <= |slots| && slots[i].cas.Sub? && CanDo(p, Answer(p, luck))
            && Do(p, Answer(p, luck))
               == Stand(CasesOf(Deactivate(slots, m, i)),
                        Trying(1, m - 1, log.(delivered := log.delivered + [slots[i].cas.chan])))
  {
    hide ChansOf;
    CasesOfDeactivate(slots, m, luck.chosen % m);
    assert CasesOf(slots)[luck.chosen % m].Sub?;
  }

  /** The removal is of an entry of sendCases. */
  lemma EntryChan<T>(slots: seq<Slot<T>>, m: nat, value: T, log: Log, luck: Luck)
    requires Fits(slots, m, value, log) && m > 1
    ensures |slots| > 1
    ensures var j := 1 + luck.entry % (|slots| - 1);
            && j < |slots| && slots[j].cas.Sub?
            && slots[j].cas.chan == ChanOfEntry(CasesOf(slots), luck.entry)
            && Sub(slots[j].cas.chan) in CasesOf(slots)
  {
    hide ChansOf;
    var cs, j := CasesOf(slots), 1 + luck.entry % (|slots| - 1);
    assert cs[j].Sub? && cs[j] == slots[j].cas;
  }

  /** Or a removal arrives. */
  lemma DropsOne<T>(slots: seq<Slot<T>>, m: nat, value: T, log: Log, luck: Luck)
    requires Fits(slots, m, value, log) && m > 1 && luck.chosen % m == 0
    ensures var p, c := Stand(CasesOf(slots), Selecting(m, log)), ChanOfEntry(CasesOf(slots), luck.entry);
            var i := Find(CasesOf(slots), c);
            && 0 < i < |slots| && CanDo(p, Answer(p, luck))
            && Do(p, Answer(p, luck))
               == Stand(CasesOf(Delete(slots, i)),
                        if i < m then Trying(1, m - 1, log.(dropped := log.dropped + multiset{c}))
                        else Trying(1, m, log.(late := log.late + multiset{c})))
  {
    hide ChansOf, CanDo, Do, ChanOfEntry, Fits, Find;
    var cs, c := CasesOf(slots), ChanOfEntry(CasesOf(slots), luck.entry);
    EntryChan(slots, m, value, log, luck);
    FitsBounds(slots, m, value, log);
    var i := Find(cs, c);
    FindSub(cs, c);
    DropStep(cs, m, log, c);
    CasesOfDelete(slots, i);
  }

  lemma FindSub(cs: seq<Case>, c: Chan)
    requires Sub(c) in cs && cs[0] == RemoveSub
    ensures 0 < Find(cs, c) < |cs|
  {
  }

  /** The two steps of a removal together. */
  lemma DropStep(cs: seq<Case>, m: nat, log: Log, c: Chan)
    requires m > 1 && Find(cs, c) > 0
    ensures var p, i := Stand(cs, Selecting(m, log)), Find(cs, c);
            && CanDo(p, Drop(c))
            && Do(p, Drop(c)) == Stand(Delete(cs, i),
                 if i < m then Trying(1, m - 1, log.(dropped := log.dropped + multiset{c}))
                 else Trying(1, m, log.(late := log.late + multiset{c})))
  {
    hide Find, Delete;
  }

  /** The case at i has taken its Send value: cases.deactivate(i), and nsent counts one more. */
  method Serve<T>(s: Slice<T>, cs: Slice<T>, i: nat, ghost value: T, ghost log: Log) returns (r: Slice<T>, c: Chan, v: T)
    requires cs.arr == s.arr && 0 < i < cs.len <= s.len <= s.arr.Length
    requires Fits(s.arr[..s.len], cs.len, value, log)
    modifies s.arr
    ensures r == Slice(s.arr, cs.len - 1) && v == value
    ensures Fits(s.arr[..s.len], r.len, value, log.(delivered := log.delivered + [c]))
    ensures old(s.arr[i].cas) == Sub(c) && s.arr[..s.len] == Deactivate(old(s.arr[..s.len]), cs.len, i)
  {
    hide ChansOf, LogFits;
    ghost var slots := s.arr[..s.len];
    Served(slots, cs.len, i, value, log);
    c, v := s.arr[i].cas.chan, s.arr[i].send.value;
    r := DeactivateIn(cs, i);
    assert s.arr[..s.len] == Deactivate(slots, cs.len, i);
  }

  /** The inner loop: try each case of cases once without blocking. */
  method TryAll<T>(s: Slice<T>, cs: Slice<T>, value: T, env: nat -> Luck, from: nat, ghost log: Log)
    returns (r: Slice<T>, nsent: nat, d: Deliveries<T>, n: nat)
    requires cs.arr == s.arr && cs.len <= s.len <= s.arr.Length
    requires Fits(s.arr[..s.len], cs.len, value, log)
    modifies s.arr
    ensures r.arr == s.arr && 1 <= r.len <= cs.len && nsent == |d| && n >= from
    ensures Fits(s.arr[..s.len], r.len, value, log.(delivered := log.delivered + To(d)))
    ensures forall k :: 0 <= k < |d| ==> d[k].1 == value
    ensures Plays(Stand(CasesOf(old(s.arr[..s.len])), Trying(1, cs.len, log)), env, from, n)
    ensures Play(Stand(CasesOf(old(s.arr[..s.len])), Trying(1, cs.len, log)), env, from, n)
         == Stand(CasesOf(s.arr[..s.len]), Trying(r.len, r.len, log.(delivered := log.delivered + To(d))))
  {
    hide Fits, Play, Plays;
    ghost var p := Stand(CasesOf(s.arr[..s.len]), Trying(1, cs.len, log));
    r, nsent, d, n := cs, 0, [], from;
    assert log.delivered + To(d) == log.delivered;
    FitsBounds(s.arr[..s.len], cs.len, value, log);
    PlayNothing(p, env, from);
    var i: int := 1;
    while i < r.len
      invariant 1 <= i <= r.len && r.arr == s.arr && r.len <= cs.len && nsent == |d| && n >= from
      invariant Fits(s.arr[..s.len], r.len, value, log.(delivered := log.delivered + To(d)))
      invariant forall k :: 0 <= k < |d| ==> d[k].1 == value
      invariant Plays(p, env, from, n)
      invariant Play(p, env, from, n)
             == Stand(CasesOf(s.arr[..s.len]), Trying(i, r.len, log.(delivered := log.delivered + To(d))))
      decreases r.len - i
    {
      ghost var was, log1 := s.arr[..s.len], log.(delivered := log.delivered + To(d));
      PlayOne(p, env, from, n);
      TriesOne(was, i, r.len, value, log1, env(n));
      var ok: bool := env(n).ready;
      n := n + 1;
      if ok {
        var c, v;
        r, c, v := Serve(s, r, i, value, log1);
        ToAppend(d, c, v);
        assert log.delivered + To(d + [(c, v)]) == log1.delivered + [c];
        nsent, d := nsent + 1, d + [(c, v)];
        i := i - 1;
      }
      i := i + 1;
    }
  }

  /** A removal arrives on removeSub: it leaves sendCases, and cases too if it was still to be served. */
  method RemoveDuring<T>(s: Slice<T>, cs: Slice<T>, c: Chan, ghost value: T, ghost log: Log)
    returns (s': Slice<T>, cs': Slice<T>, ghost log': Log)
    requires cs.arr == s.arr && cs.len <= s.len <= s.arr.Length
    requires Fits(s.arr[..s.len], cs.len, value, log) && Sub(c) in CasesOf(s.arr[..s.len])
    modifies s.arr
    ensures s'.arr == cs'.arr == s.arr && s'.len == s.len - 1 && cs'.len <= s'.len && cs'.len <= cs.len
    ensures Fits(s.arr[..s'.len], cs'.len, value, log')
    ensures log'.start == log.start && log'.delivered == log.delivered
    ensures log'.dropped + log'.late == log.dropped + log.late + multiset{c}
    ensures cs'.len == cs.len ==> log'.dropped == log.dropped
    ensures var i := Find(CasesOf(old(s.arr[..s.len])), c);
            && i >= 0 && s.arr[..s'.len] == Delete(old(s.arr[..s.len]), i)
            && cs'.len == (if i < cs.len then cs.len - 1 else cs.len)
            && log' == if i < cs.len then log.(dropped := log.dropped + multiset{c}) else log.(late := log.late + multiset{c})
  {
    hide ChansOf, LogFits;
    ghost var slots := s.arr[..s.len];
    var index := FindIn(s, c);
    Removed(slots, cs.len, index, value, log);
    s' := DeleteFrom(s, index);
    cs' := cs;
    if index >= 0 && index < cs.len {
      cs' := Slice(s'.arr, cs.len - 1);
      log' := log.(dropped := log.dropped + multiset{c});
    } else {
      log' := log.(late := log.late + multiset{c});
    }
    assert Fits(s.arr[..s'.len], cs'.len, value, log');
    FitsBounds(s.arr[..s'.len], cs'.len, value, log');
  }

  /** Everything has been served: what sendCases holds is what the Send started from, less the removals. */
  lemma AllServed<T>(slots: seq<Slot<T>>, value: T, log: Log)
    requires Fits(slots, 1, value, log)
    ensures multiset(log.delivered) + log.dropped == log.start
    ensures ChansOf(CasesOf(slots)) + log.late + log.dropped == log.start
  {
    hide ChansOf;
    var cs := CasesOf(slots);
    OnlyHead(cs);
    assert cs == cs[..1] + cs[1..];
    SplitChans(cs, 1);
  }

  lemma SplitChans(cs: seq<Case>, m: nat)
    requires m <= |cs|
    ensures ChansOf(cs[..m]) + ChansOf(cs[m..]) == ChansOf(cs)
  {
    assert cs == cs[..m] + cs[m..];
    TotalConcat(cs[..m], cs[m..], ChanOf);
  }

  lemma AppendChans(cs: seq<Case>, inbox: seq<Chan>)
    ensures ChansOf(cs + Cases(inbox)) == ChansOf(cs) + multiset(inbox)
  {
    TotalConcat(cs, Cases(inbox), ChanOf);
    TotalCases(inbox);
  }

  lemma StartFits<T>(slots: seq<Slot<T>>, value: T)
    requires HeadFirst(CasesOf(slots)) && forall k :: 1 <= k < |slots| ==> slots[k].send == Some(value)
    ensures Fits(slots, |slots|, value, Log(ChansOf(CasesOf(slots)), [], multiset{}, multiset{}))
  {
    var cs := CasesOf(slots);
    assert cs[..|cs|] == cs && cs[|cs|..] == [];
  }

  class FeedOf<T> {
    var sendCases: Slice<T>
    var inbox: seq<Chan>

    ghost predicate Valid()
      reads this, sendCases.arr
    {
      sendCases.len <= sendCases.arr.Length && HeadFirst(Held())
    }

    /** The cases of sendCases. */
    ghost function Held(): seq<Case>
      reads this, sendCases.arr
      requires sendCases.len <= sendCases.arr.Length
    {
      CasesOf(sendCases.arr[..sendCases.len])
    }

    /** init */
    constructor ()
      ensures Valid() && Held() == [RemoveSub] && inbox == []
      ensures fresh(sendCases.arr)
    {
      var a := new Slot<T>[1](i => Slot(RemoveSub, None));
      sendCases := Slice(a, 1);
      inbox := [];
    }

    /** Subscribe */
    method Subscribe(c: Chan)
      requires Valid()
      modifies this`inbox
      ensures Valid() && inbox == old(inbox) + [c] && Held() == old(Held())
    {
      inbox := inbox + [c];
    }

    /**
     remove, while no Send is in progress, so that the second part gets the token. A channel in
     neither list would make delete run with index -1; RemovalFinds of FeedRuns rules it out.
     */
    method Remove(c: Chan)
      requires Valid() && (c in inbox || Sub(c) in Held())
      modifies this, sendCases.arr
      ensures Valid() && sendCases.arr == old(sendCases.arr)
      ensures if c in old(inbox)
              then inbox == Delete(old(inbox), FindChan(old(inbox), c)) && Held() == old(Held())
              else inbox == old(inbox) && Held() == Delete(old(Held()), Find(old(Held()), c))
    {
      var i := FindChan(inbox, c);
      if i != -1 {
        inbox := Delete(inbox, i);
      } else {
        var j := FindIn(sendCases, c);
        CasesOfDelete(sendCases.arr[..sendCases.len], j);
        sendCases := DeleteFrom(sendCases, j);
      }
    }

    /** The first part of Send: the inbox joins sendCases, and every subscriber's case gets the value. */
    method MergeInbox(value: T) returns (ghost log: Log)
      requires Valid()
      modifies this, sendCases.arr
      ensures inbox == [] && sendCases.len <= sendCases.arr.Length
      ensures if old(sendCases.len) + |old(inbox)| <= old(sendCases.arr).Length
              then sendCases.arr == old(sendCases.arr) else fresh(sendCases.arr)
      ensures Start(old(Held()), old(inbox)) == Stand(Held(), Trying(1, sendCases.len, log))
      ensures Fits(sendCases.arr[..sendCases.len], sendCases.len, value, log)
      ensures log == Log(ChansOf(old(Held())) + multiset(old(inbox)), [], multiset{}, multiset{})
    {
      hide ChansOf;
      ghost var was := Held();
      AppendChans(was, inbox);
      sendCases := AppendTo(sendCases, inbox);
      ghost var cs := Held();
      assert cs == was + Cases(inbox);
      log := Log(ChansOf(cs), [], multiset{}, multiset{});
      inbox := [];
      SetSend(sendCases, Some(value));
      assert Held() == cs;
      StartFits(sendCases.arr[..sendCases.len], value);
    }

    /** One turn of the outer loop up to the select: the fast path, added to what was sent before. */
    method FastPath(cases: Slice<T>, value: T, env: nat -> Luck, from: nat, sent: nat, before: Deliveries<T>, ghost log: Log)
      returns (r: Slice<T>, nsent: nat, d: Deliveries<T>, n: nat, ghost log': Log)
      requires cases.arr == sendCases.arr && cases.len <= sendCases.len <= sendCases.arr.Length
      requires Fits(sendCases.arr[..sendCases.len], cases.len, value, log) && log.delivered == To(before)
      requires sent == |before| && forall k :: 0 <= k < |before| ==> before[k].1 == value
      modifies sendCases.arr
      ensures r.arr == sendCases.arr && 1 <= r.len <= cases.len && nsent == |d| && n >= from
      ensures Fits(sendCases.arr[..sendCases.len], r.len, value, log')
      ensures log'.start == log.start && log'.delivered == To(d)
      ensures log'.dropped == log.dropped && log'.late == log.late
      ensures forall k :: 0 <= k < |d| ==> d[k].1 == value
      ensures Plays(Stand(old(Held()), Trying(1, cases.len, log)), env, from, n)
      ensures Play(Stand(old(Held()), Trying(1, cases.len, log)), env, from, n)
           == Stand(Held(), Trying(r.len, r.len, log'))
    {
      hide Fits, Play, Plays;
      var more, k;
      r, k, more, n := TryAll(sendCases, cases, value, env, from, log);
      nsent, d := sent + k, before + more;
      log' := log.(delivered := log.delivered + To(more));
      assert To(d) == To(before) + To(more);
    }

    /**
     reflect.Select over cases: a removal arrives, whose channel is recv, or one receiver takes its
     value. Nothing but what was received on removeSub is thrown out.
     */
    method Select(cases: Slice<T>, value: T, luck: Luck, sent: nat, before: Deliveries<T>, ghost log: Log)
      returns (r: Slice<T>, nsent: nat, d: Deliveries<T>, recv: Option<Chan>, ghost log': Log)
      requires cases.arr == sendCases.arr && 1 < cases.len <= sendCases.len <= sendCases.arr.Length
      requires Fits(sendCases.arr[..sendCases.len], cases.len, value, log) && log.delivered == To(before)
      requires sent == |before| && forall k :: 0 <= k < |before| ==> before[k].1 == value
      modifies this`sendCases, sendCases.arr
      ensures sendCases.arr == old(sendCases.arr) == r.arr && r.len <= sendCases.len <= sendCases.arr.Length
      ensures sendCases.len + r.len < old(sendCases.len) + cases.len
      ensures sendCases.len <= old(sendCases.len) && nsent == |d|
      ensures Fits(sendCases.arr[..sendCases.len], r.len, value, log')
      ensures log'.start == log.start && log'.delivered == To(d)
      ensures match recv
              case Some(c) =>
                d == before && sendCases.len == old(sendCases.len) - 1
                && log'.dropped + log'.late == log.dropped + log.late + multiset{c}
              case None =>
                |d| == |before| + 1 && d[..|before|] == before && sendCases.len == old(sendCases.len)
                && log'.dropped == log.dropped && log'.late == log.late
      ensures forall k :: 0 <= k < |d| ==> d[k].1 == value
      ensures var p := Stand(old(Held()), Selecting(cases.len, log));
              CanDo(p, Answer(p, luck)) && Do(p, Answer(p, luck)) == Stand(Held(), Trying(1, r.len, log'))
    {
      hide Fits, CanDo, Do, Answer, ChanOfEntry, Play, Plays, Find, Delete, Deactivate, ChansOf;
      nsent, d, recv := sent, before, None;
      ghost var was := sendCases.arr[..sendCases.len];
      var chosen: nat := luck.chosen % cases.len;
      if chosen == 0 {
        EntryChan(was, cases.len, value, log, luck);
        var j: nat := 1 + luck.entry % (sendCases.len - 1);
        var c := sendCases.arr[j].cas.chan;
        DropsOne(was, cases.len, value, log, luck);
        sendCases, r, log' := RemoveDuring(sendCases, cases, c, value, log);
        recv := Some(c);
      } else {
        PicksOne(was, cases.len, value, log, luck);
        var c, v;
        r, c, v := Serve(sendCases, cases, chosen, value, log);
        log' := log.(delivered := log.delivered + [c]);
        ToAppend(d, c, v);
        nsent, d := nsent + 1, d + [(c, v)];
      }
    }

    /**
     Send: each subscription present at the start is served once with the value, unless it was
     removed before its turn; the count is the number served, and what sendCases holds at the end
     is what it held at the start with the inbox, less the channels received on removeSub. Of those,
     dropped had not been served and late had. Whatever the world does, its acts are steps of the
     protocol, each enabled in its turn, from Merge to the release of the token.
     */
    method Send(value: T, env: nat -> Luck)
      returns (nsent: nat, d: Deliveries<T>, removed: seq<Chan>, n: nat, ghost dropped: multiset<Chan>, ghost late: multiset<Chan>)
      requires Valid()
      modifies this, sendCases.arr
      ensures Valid() && inbox == [] && nsent == |d|
      ensures if old(sendCases.len) + |old(inbox)| <= old(sendCases.arr).Length
              then sendCases.arr == old(sendCases.arr) else fresh(sendCases.arr)
      ensures forall k :: 0 <= k < |d| ==> d[k].1 == value
      ensures dropped + late == multiset(removed)
      ensures multiset(To(d)) + dropped == ChansOf(old(Held())) + multiset(old(inbox))
      ensures ChansOf(Held()) + multiset(removed) == ChansOf(old(Held())) + multiset(old(inbox))
      ensures removed == [] ==> multiset(To(d)) == ChansOf(old(Held())) + multiset(old(inbox)) == ChansOf(Held())
      ensures forall k :: 1 <= k < sendCases.len ==> sendCases.arr[k].send == None
      ensures Plays(Start(old(Held()), old(inbox)), env, 0, n)
      ensures Play(Start(old(Held()), old(inbox)), env, 0, n)
           == Stand(Held(), Releasing(Log(ChansOf(old(Held())) + multiset(old(inbox)), To(d), dropped, late)))
    {
      hide ChansOf, Play, Plays, Start, CanDo, Do, Answer, Fits, LogFits, HeadFirst, Find, Delete, Deactivate;
      ghost var start := Start(Held(), inbox);
      ghost var log := MergeInbox(value);
      var cases := sendCases;
      nsent, d, removed, n := 0, [], [], 0;
      assert To(d) == [];
      PlayNothing(start, env, 0);
      while true
        invariant cases.arr == sendCases.arr && cases.len <= sendCases.len <= sendCases.arr.Length
        invariant if old(sendCases.len) + |old(inbox)| <= old(sendCases.arr).Length
                  then sendCases.arr == old(sendCases.arr) else fresh(sendCases.arr)
        invariant inbox == [] && nsent == |d|
        invariant Fits(sendCases.arr[..sendCases.len], cases.len, value, log)
        invariant log.start == ChansOf(old(Held())) + multiset(old(inbox)) && log.delivered == To(d)
        invariant log.dropped + log.late == multiset(removed)
        invariant forall k :: 0 <= k < |d| ==> d[k].1 == value
        invariant Plays(start, env, 0, n) && Play(start, env, 0, n) == Stand(Held(), Trying(1, cases.len, log))
        decreases sendCases.len + cases.len
      {
        ghost var from := n;
        cases, nsent, d, n, log := FastPath(cases, value, env, n, nsent, d, log);
        FitsBounds(sendCases.arr[..sendCases.len], cases.len, value, log);
        PlayOn(start, env, 0, from, n);
        PlayOne(start, env, 0, n);
        EndsLoop(sendCases.arr[..sendCases.len], cases.len, log, env(n));
        n := n + 1;
        if cases.len == 1 {
          break;
        }
        PlayOne(start, env, 0, n);
        var recv;
        cases, nsent, d, recv, log := Select(cases, value, env(n), nsent, d, log);
        n := n + 1;
        if recv.Some? {
          removed := removed + [recv.value];
        }
      }
      FitsBounds(sendCases.arr[..sendCases.len], 1, value, log);
      AllServed(sendCases.arr[..sendCases.len], value, log);
      dropped, late := log.dropped, log.late;
      SetSend(sendCases, None);
    }
  }
}
