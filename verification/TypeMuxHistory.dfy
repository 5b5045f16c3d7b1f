/**
 What a run of TypeMux owes to each subscription, from the steps in which Subscribe and Post were
 called: which lists it is in, which Posts it hears, and what Stop does to it.
 */
module TypeMuxHistory {
  import opened Wrappers
  import opened TypeMux
  import opened TypeMuxInvariant
  import opened TypeMuxRuns

  // ---------- the lists ----------

  /** Whatever types are asked for, a list stays as it is or gets the subscription at its end. */
  lemma {:induction false} RegisterAppends(subm: map<Type, seq<nat>>, types: seq<Type>, sub: nat, t: Type)
    ensures var m := Register(subm, types, sub).0;
            Listed(m, t) == Listed(subm, t) || (Listed(m, t) == Listed(subm, t) + [sub] && sub !in Listed(subm, t))
    decreases |types|
  {
    if types != [] && sub !in Listed(subm, types[0]) {
      var more := subm[types[0] := Listed(subm, types[0]) + [sub]];
      RegisterAppends(more, types[1..], sub, t);
      assert Register(subm, types, sub) == Register(more, types[1..], sub);
      if t == types[0] {
        assert sub == Listed(more, t)[|Listed(subm, t)|];
      }
    }
  }

  /**
   Subscribe puts the subscription at the end of the list of each type before the first one that
   comes again, leaves the other lists alone, and succeeds when no type comes again.
   */
  lemma {:induction false} RegisterAdds(subm: map<Type, seq<nat>>, types: seq<Type>, sub: nat, n: nat, t: Type)
    requires n <= |types| && Distinct(types[..n]) && forall j :: 0 <= j < n ==> sub !in Listed(subm, types[j])
    requires n < |types| ==> types[n] in types[..n] || sub in Listed(subm, types[n])
    ensures Register(subm, types, sub).1 <==> n == |types|
    ensures Listed(Register(subm, types, sub).0, t) == Listed(subm, t) + (if t in types[..n] then [sub] else [])
    decreases |types|
  {
    if n > 0 {
      var more := subm[types[0] := Listed(subm, types[0]) + [sub]];
      assert types[..n] == [types[0]] + types[1..][..n - 1];
      assert forall j :: 0 <= j < n - 1 ==> types[1..][j] == types[..n][j + 1] != types[..n][0];
      assert sub in Listed(more, types[0]);
      RegisterAdds(more, types[1..], sub, n - 1, t);
      assert Register(subm, types, sub) == Register(more, types[1..], sub);
      assert Listed(more, t) == if t == types[0] then Listed(subm, t) + [sub] else Listed(subm, t);
    }
  }

  /** del takes the subscription out of each list and leaves the others in their order. */
  lemma UnlistKeepsOrder(subm: map<Type, seq<nat>>, sub: nat, t: Type)
    requires Distinct(Listed(subm, t))
    ensures var l, m := Listed(subm, t), Listed(Unlist(subm, sub), t);
            if sub in l then exists i :: 0 <= i < |l| && l[i] == sub && m == l[..i] + l[i + 1..] else m == l
  {
    var l := Listed(subm, t);
    if sub in l {
      assert l[IndexOf(l, sub)] == sub;
    }
  }

  // ---------- the states of a run ----------

  /** The state after n steps. */
  ghost function At(es: seq<Step>, n: nat): State
    requires n <= |es| && CanRun(Init(), es[..n])
  {
    Run(Init(), es[..n])
  }

  lemma {:induction false} RunSplit(s: State, x: seq<Step>, e: Step)
    ensures CanRun(s, x + [e]) <==> CanRun(s, x) && Enabled(Run(s, x), e)
    ensures CanRun(s, x + [e]) ==> Run(s, x + [e]) == Next(Run(s, x), e)
    decreases |x|
  {
    hide Next, Enabled;
    if x == [] {
      assert x + [e] == [e] && [e][1..] == [];
    } else {
      assert (x + [e])[1..] == x[1..] + [e];
      if Enabled(s, x[0]) {
        RunSplit(Next(s, x[0]), x[1..], e);
      }
    }
  }

  lemma {:induction false} Prefixes(es: seq<Step>, n: nat)
    requires CanRun(Init(), es) && n <= |es|
    ensures CanRun(Init(), es[..n])
    decreases |es|
  {
    if n < |es| {
      var x := es[..|es| - 1];
      assert es == x + [es[|es| - 1]] && es[..n] == x[..n];
      RunSplit(Init(), x, es[|es| - 1]);
      Prefixes(x, n);
    } else {
      assert es[..n] == es;
    }
  }

  /** The state after a step is the one before it moved on. */
  lemma AtNext(es: seq<Step>, n: nat)
    requires CanRun(Init(), es) && n < |es|
    ensures CanRun(Init(), es[..n]) && CanRun(Init(), es[..n + 1])
    ensures Inv(At(es, n)) && LogOk(At(es, n))
    ensures Enabled(At(es, n), es[n]) && At(es, n + 1) == Next(At(es, n), es[n])
  {
    hide Inv, LogOk, Next, Enabled, CanRun, Run;
    Prefixes(es, n);
    Prefixes(es, n + 1);
    assert es[..n + 1] == es[..n] + [es[n]];
    RunSplit(Init(), es[..n], es[n]);
    InitInv();
    EmptyLog();
    RunKeeps(Init(), es[..n]);
    RunKeepsLog(Init(), es[..n]);
  }

  /** Subscription k was asked for by call p in step i, for these types. */
  ghost predicate SubscribedAt(es: seq<Step>, i: nat, p: nat, k: nat, types: seq<Type>) {
    i < |es| && CanRun(Init(), es[..i]) && es[i] == NewSub(types)
    && |At(es, i).calls| == p && |At(es, i).subs| == k
  }

  /** Call q is the Post of an event of type t made in step m. */
  ghost predicate PostedAt(es: seq<Step>, m: nat, q: nat, t: Type) {
    m < |es| && CanRun(Init(), es[..m]) && es[m] == NewPost(t) && |At(es, m).calls| == q
  }

  // ---------- registered until del or Stop ----------

  ghost predicate ListedUnder(s: State, k: nat, types: seq<Type>) {
    forall t :: k in Listed(s.subm, t) <==> t in types
  }

  /** Subscribe has not got so far, or panicked, or put k in the lists of its types. */
  ghost predicate Registered(s: State, p: nat, k: nat, types: seq<Type>) {
    p < |s.calls| && k < |s.subs| &&
    match s.calls[p]
    case Subscribing(j, ts) => j == k && ts == types
    case Subscribed(j) =>
      j == k && s.subs[k].known && if s.stopped then types == [] || Shut(s.subs[k]) else ListedUnder(s, k, types)
    case DuplicateType(j) => true
    case _ => false
  }

  /** The step takes k out of the lists. */
  ghost predicate Deletes(s: State, e: Step, k: nat) {
    e.Del? && e.p < |s.calls| && s.calls[e.p] == Unsubscribing(k)
  }

  /** Another subscription's Subscribe leaves k where it was. */
  lemma EnterOther(s: State, p: nat, k: nat, types: seq<Type>)
    requires Enabled(s, Enter(p)) && s.calls[p].sub != k && ListedUnder(s, k, types)
    ensures ListedUnder(Next(s, Enter(p)), k, types)
  {
    hide Register;
    var c, r := s.calls[p], Next(s, Enter(p));
    forall t
      ensures k in Listed(r.subm, t) <==> t in types
    {
      RegisterAppends(s.subm, c.types, c.sub, t);
    }
  }

  /** Its own Subscribe puts it in the lists of its types, or panics. */
  lemma EnterOwn(s: State, p: nat, k: nat, types: seq<Type>)
    requires Inv(s) && Enabled(s, Enter(p)) && s.calls[p] == Subscribing(k, types)
    ensures Registered(Next(s, Enter(p)), p, k, types)
  {
    hide Register;
    var r := Next(s, Enter(p));
    assert CallOk(s, p);
    forall t
      ensures k !in Listed(s.subm, t)
    {
      assert t in s.subm ==> AllLive(s, s.subm[t]);
    }
    if !s.stopped {
      RegisterOkIff(s.subm, types, k);
      if Distinct(types) {
        assert types[..|types|] == types;
        forall t
          ensures k in Listed(r.subm, t) <==> t in types
        {
          RegisterAdds(s.subm, types, k, |types|, t);
        }
      }
    }
  }

  /** A Stop that finishes leaves what is listed shut. */
  lemma FinishRegistered(s: State, x: nat, p: nat, k: nat, types: seq<Type>)
    requires Inv(s) && Enabled(s, Finish(x)) && s.calls[x].stop && p < |s.calls| && s.calls[p] == Subscribed(k)
    requires !s.stopped && types != [] && k < |s.subs| && ListedUnder(s, k, types)
    ensures Shut(s.subs[k])
  {
    assert types[0] in types;
    assert k in Listed(s.subm, types[0]);
    assert IsListed(s.subm, k);
    StopShutsListed(s, x, k);
  }

  lemma DelRegistered(s: State, x: nat, k: nat, types: seq<Type>)
    requires Inv(s) && Enabled(s, Del(x)) && !Deletes(s, Del(x), k) && ListedUnder(s, k, types)
    ensures ListedUnder(Next(s, Del(x)), k, types)
  {
    UnlistRemoves(s.subm, s.calls[x].sub);
  }

  /** Its own subscription is shut, or no step but Enter, Del and Finish touches what it is listed under. */
  lemma SubscribedKeeps(s: State, e: Step, p: nat, k: nat, types: seq<Type>)
    requires Inv(s) && Enabled(s, e) && Registered(s, p, k, types) && !Deletes(s, e, k)
    requires s.calls[p].Subscribed?
    ensures Registered(Next(s, e), p, k, types)
  {
    hide Register, Unlist, CoversLists, MuxOk, Inv;
    NextLater(s, e);
    KnownStays(s, e, k);
    if s.stopped {
      if types != [] {
        ShutStays(s, e, k);
      }
    } else {
      match e {
        case Enter(x) =>
          OwnerEnters(s, x, k);
          EnterOther(s, x, k, types);
        case Del(x) => DelRegistered(s, x, k, types);
        case Finish(x) =>
          if s.calls[x].stop && types != [] {
            FinishRegistered(s, x, p, k, types);
          }
        case _ =>
      }
    }
  }

  lemma KnownStays(s: State, e: Step, k: nat)
    requires Inv(s) && Enabled(s, e) && k < |s.subs| && s.subs[k].known
    ensures k < |Next(s, e).subs| && Next(s, e).subs[k].known && (s.stopped ==> Next(s, e).stopped)
  {
    hide Register, Unlist, CoversLists, MuxOk, SubOk, CallOk;
  }

  /** Subscribe is done once for each subscription. */
  lemma OwnerEnters(s: State, x: nat, k: nat)
    requires Inv(s) && Enabled(s, Enter(x)) && k < |s.subs| && s.subs[k].known
    ensures s.calls[x].sub != k
  {
    assert CallOk(s, x);
  }

  lemma RegisteredKeeps(s: State, e: Step, p: nat, k: nat, types: seq<Type>)
    requires Inv(s) && Enabled(s, e) && Registered(s, p, k, types) && !Deletes(s, e, k)
    ensures Registered(Next(s, e), p, k, types)
  {
    hide Register, Unlist, CoversLists, MuxOk, SubOk, CallOk, ListedUnder, Shut;
    NextLater(s, e);
    if s.calls[p].Subscribed? {
      SubscribedKeeps(s, e, p, k, types);
    } else if e == Enter(p) && s.calls[p].Subscribing? {
      EnterOwn(s, p, k, types);
    }
  }

  /** No step from i on takes k out of the lists. */
  ghost predicate NotDeleted(es: seq<Step>, i: nat, k: nat) {
    CanRun(Init(), es) && forall n :: i <= n < |es| && CanRun(Init(), es[..n]) ==> !Deletes(At(es, n), es[n], k)
  }

  lemma {:induction false} RegisteredUntil(es: seq<Step>, i: nat, p: nat, k: nat, types: seq<Type>, n: nat)
    requires CanRun(Init(), es) && SubscribedAt(es, i, p, k, types) && NotDeleted(es, i, k)
    requires i < n <= |es|
    ensures CanRun(Init(), es[..n]) && Registered(At(es, n), p, k, types)
  {
    hide Inv, LogOk, Next, Enabled, At, Registered, Deletes;
    AtNext(es, n - 1);
    if n == i + 1 {
      NewSubRegistered(At(es, i), types);
    } else {
      RegisteredUntil(es, i, p, k, types, n - 1);
      RegisteredKeeps(At(es, n - 1), es[n - 1], p, k, types);
    }
  }

  lemma NewSubRegistered(s: State, types: seq<Type>)
    requires Enabled(s, NewSub(types))
    ensures Registered(Next(s, NewSub(types)), |s.calls|, |s.subs|, types)
  {
  }

  /**
   A subscription whose Subscribe returned is listed under exactly its types until its own del or
   until a Stop finishes, and what a finished Stop leaves of it is shut.
   */
  lemma ListedUntilDelOrStop(es: seq<Step>, i: nat, p: nat, k: nat, types: seq<Type>)
    requires CanRun(Init(), es) && SubscribedAt(es, i, p, k, types) && NotDeleted(es, i, k)
    requires p < |Run(Init(), es).calls| && Run(Init(), es).calls[p].Subscribed?
    ensures var s := Run(Init(), es); k < |s.subs| && s.calls[p] == Subscribed(k)
    ensures var s := Run(Init(), es);
            if s.stopped then types == [] || Shut(s.subs[k]) else forall t :: k in Listed(s.subm, t) <==> t in types
  {
    hide Run, CanRun;
    assert es[..|es|] == es;
    RegisteredUntil(es, i, p, k, types, |es|);
  }

  // ---------- never registered again ----------

  ghost predicate Unlisted(s: State, k: nat) {
    k < |s.subs| && s.subs[k].known && forall t :: k !in Listed(s.subm, t)
  }

  lemma UnlistedKeeps(s: State, e: Step, k: nat)
    requires Inv(s) && Enabled(s, e) && Unlisted(s, k)
    ensures Unlisted(Next(s, e), k)
  {
    hide Register, Unlist, CoversLists, SubOk, CallOk, MuxOk, Inv;
    KnownStays(s, e, k);
    match e {
      case Enter(x) =>
        OwnerEnters(s, x, k);
        forall t
          ensures k !in Listed(Next(s, e).subm, t)
        {
          RegisterAppends(s.subm, s.calls[x].types, s.calls[x].sub, t);
        }
      case Del(x) => DelAsked(s, x, k);
      case _ =>
    }
  }

  lemma DelUnlists(s: State, x: nat, k: nat)
    requires Inv(s) && Enabled(s, Del(x)) && s.calls[x] == Unsubscribing(k)
    ensures Unlisted(Next(s, Del(x)), k)
  {
    assert CallOk(s, x);
    UnlistRemoves(s.subm, k);
  }

  /** From its del on, a subscription is in no list, so no Post called later has it in its snapshot. */
  lemma {:induction false} NeverListedAgain(es: seq<Step>, j: nat, k: nat, n: nat)
    requires CanRun(Init(), es) && j < n <= |es| && CanRun(Init(), es[..j]) && Deletes(At(es, j), es[j], k)
    ensures CanRun(Init(), es[..n]) && forall t :: k !in Listed(At(es, n).subm, t)
    ensures Unlisted(At(es, n), k)
  {
    hide Inv, LogOk, Next, Enabled, At, Deletes;
    AtNext(es, n - 1);
    if n == j + 1 {
      DeletesUnlists(At(es, j), es[j], k);
    } else {
      NeverListedAgain(es, j, k, n - 1);
      UnlistedKeeps(At(es, n - 1), es[n - 1], k);
    }
  }

  lemma DeletesUnlists(s: State, e: Step, k: nat)
    requires Inv(s) && Enabled(s, e) && Deletes(s, e, k)
    ensures Unlisted(Next(s, e), k)
  {
    hide Inv, Next, Unlisted;
    DelUnlists(s, e.p, k);
  }

  // ---------- Unsubscribe ----------

  /** Call q is an Unsubscribe of k, made in step j. */
  ghost predicate UnsubscribedAt(es: seq<Step>, j: nat, q: nat, k: nat) {
    j < |es| && CanRun(Init(), es[..j]) && es[j] == CallUnsubscribe(k) && |At(es, j).calls| == q
  }

  /** It is before its del; or k is in no list, and its closewait has returned or is what the call is at. */
  ghost predicate Removing(s: State, q: nat, k: nat) {
    q < |s.calls| &&
    match s.calls[q]
    case Unsubscribing(j) => j == k
    case Closing(done, todo, stop) => !stop && (if todo == [] then k in done else todo == [k]) && Unlisted(s, k)
    case Draining(done, todo, stop) => !stop && todo == [k] && Unlisted(s, k)
    case Finished(done, stop) => k in done && Unlisted(s, k)
    case _ => false
  }

  lemma RemovingKeeps(s: State, e: Step, q: nat, k: nat)
    requires Inv(s) && Enabled(s, e) && Removing(s, q, k)
    ensures Removing(Next(s, e), q, k)
  {
    hide Register, Unlist, CoversLists, SubOk, CallOk, MuxOk, Inv, Unlisted;
    NextLater(s, e);
    if s.calls[q].Unsubscribing? {
      if e == Del(q) {
        DelUnlists(s, q, k);
      }
    } else {
      UnlistedKeeps(s, e, k);
    }
  }

  lemma {:induction false} RemovingUntil(es: seq<Step>, j: nat, q: nat, k: nat, n: nat)
    requires CanRun(Init(), es) && UnsubscribedAt(es, j, q, k) && j < n <= |es|
    ensures CanRun(Init(), es[..n]) && Removing(At(es, n), q, k)
  {
    hide Inv, LogOk, Next, Enabled, At, Removing;
    AtNext(es, n - 1);
    if n == j + 1 {
      CallRemoves(At(es, j), k);
    } else {
      RemovingUntil(es, j, q, k, n - 1);
      RemovingKeeps(At(es, n - 1), es[n - 1], q, k);
    }
  }

  lemma CallRemoves(s: State, k: nat)
    requires Enabled(s, CallUnsubscribe(k))
    ensures Removing(Next(s, CallUnsubscribe(k)), |s.calls|, k)
  {
  }

  /** When an Unsubscribe has returned, its subscription is in no list, is shut, and its event channel is closed. */
  lemma UnsubscribeShuts(es: seq<Step>, j: nat, q: nat, k: nat)
    requires CanRun(Init(), es) && UnsubscribedAt(es, j, q, k)
    requires q < |Run(Init(), es).calls| && Run(Init(), es).calls[q].Finished?
    ensures var s := Run(Init(), es);
            k < |s.subs| && Shut(s.subs[k]) && s.subs[k].chanClosed && forall t :: k !in Listed(s.subm, t)
  {
    hide Run, CanRun, Shut;
    assert es[..|es|] == es;
    RemovingUntil(es, j, q, k, |es|);
    InitInv();
    RunKeeps(Init(), es);
    assert CallOk(Run(Init(), es), q);
    ClosewaitCloses(es, q, k);
  }

  /** Call p is the Subscribe of k, and k can be unsubscribed just when p has returned it. */
  ghost predicate Offered(s: State, p: nat, k: nat) {
    p < |s.calls| && k < |s.subs| && s.subs[k].owner == p
    && s.subs[k].given == (s.calls[p] == Subscribed(k))
    && match s.calls[p]
       case Subscribing(j, _) => j == k
       case Subscribed(j) => j == k
       case DuplicateType(j) => j == k
       case _ => false
  }

  lemma OfferedKeeps(s: State, e: Step, p: nat, k: nat)
    requires Inv(s) && Enabled(s, e) && Offered(s, p, k)
    ensures Offered(Next(s, e), p, k)
  {
    hide Register, Unlist, CoversLists, MuxOk;
    NextLater(s, e);
    if e.Enter? {
      assert CallOk(s, e.p);
    }
  }

  lemma {:induction false} OfferedUntil(es: seq<Step>, i: nat, p: nat, k: nat, types: seq<Type>, n: nat)
    requires CanRun(Init(), es) && SubscribedAt(es, i, p, k, types) && i < n <= |es|
    ensures CanRun(Init(), es[..n]) && Offered(At(es, n), p, k)
  {
    hide Inv, LogOk, Next, Enabled, At, Offered;
    AtNext(es, n - 1);
    if n == i + 1 {
      NewSubOffered(At(es, i), types);
    } else {
      OfferedUntil(es, i, p, k, types, n - 1);
      OfferedKeeps(At(es, n - 1), es[n - 1], p, k);
    }
  }

  lemma NewSubOffered(s: State, types: seq<Type>)
    requires Enabled(s, NewSub(types))
    ensures Offered(Next(s, NewSub(types)), |s.calls|, |s.subs|)
  {
  }

  /** A subscription can be unsubscribed as soon as Subscribe has returned it and not before. */
  lemma UnsubscribeOnceSubscribed(es: seq<Step>, i: nat, p: nat, k: nat, types: seq<Type>)
    requires CanRun(Init(), es) && SubscribedAt(es, i, p, k, types)
    ensures var s := Run(Init(), es);
            Enabled(s, CallUnsubscribe(k)) <==> p < |s.calls| && s.calls[p] == Subscribed(k)
  {
    hide Run, CanRun;
    assert es[..|es|] == es;
    OfferedUntil(es, i, p, k, types, |es|);
  }

  // ---------- a Post reaches every subscription ----------

  /** No Stop has been called, and no Unsubscribe of k. */
  ghost predicate Untouched(s: State, k: nat) {
    !s.stopped && forall p: nat :: p < |s.calls| ==> LeavesAlone(s.calls[p], k)
  }

  ghost predicate LeavesAlone(c: Call, k: nat) {
    match c
    case Unsubscribing(j) => j != k
    case StopCalled => false
    case Closing(_, todo, stop) => k !in todo && !stop
    case Draining(_, todo, stop) => k !in todo && !stop
    case Finished(_, stop) => !stop
    case _ => true
  }

  lemma UntouchedKeeps(s: State, e: Step, k: nat)
    requires Enabled(s, e) && Untouched(s, k) && e != CallStop && e != CallUnsubscribe(k)
    ensures Untouched(Next(s, e), k) && !Deletes(s, e, k)
  {
    hide Next, Enabled, LeavesAlone;
    var r := Next(s, e);
    NextLater(s, e);
    forall p: nat | p < |r.calls|
      ensures LeavesAlone(r.calls[p], k)
    {
      if p >= |s.calls| || Actor(e) == Some(p) {
        MovedLeavesAlone(s, e, k, p);
      } else {
        assert LeavesAlone(s.calls[p], k);
      }
    }
    NotStopped(s, e, k);
  }

  lemma MovedLeavesAlone(s: State, e: Step, k: nat, p: nat)
    requires Enabled(s, e) && Untouched(s, k) && e != CallStop && e != CallUnsubscribe(k)
    requires p < |Next(s, e).calls| && (p >= |s.calls| || Actor(e) == Some(p))
    ensures LeavesAlone(Next(s, e).calls[p], k)
  {
    hide Register, Unlist, Listed;
    assert p < |s.calls| ==> LeavesAlone(s.calls[p], k);
  }

  lemma NotStopped(s: State, e: Step, k: nat)
    requires Enabled(s, e) && Untouched(s, k)
    ensures !Next(s, e).stopped && !Deletes(s, e, k)
  {
    hide Register, Unlist, Listed;
    assert Actor(e).Some? ==> LeavesAlone(s.calls[Actor(e).value], k);
  }

  /** Subscribe has not got so far, or panicked, or k is open and in the lists of its types. */
  ghost predicate Open(s: State, p: nat, k: nat, types: seq<Type>) {
    Registered(s, p, k, types) && s.subs[k].created <= s.clock && (s.calls[p].Subscribed? ==> !s.subs[k].closed)
  }

  lemma OpenKeeps(s: State, e: Step, p: nat, k: nat, types: seq<Type>)
    requires Inv(s) && Enabled(s, e) && Open(s, p, k, types) && Untouched(s, k) && e != CallStop && e != CallUnsubscribe(k)
    ensures Open(Next(s, e), p, k, types)
  {
    hide Register, Unlist, Listed;
    UntouchedKeeps(s, e, k);
    RegisteredKeeps(s, e, p, k, types);
    NextLater(s, e);
    assert CallOk(s, p) && SubOk(s, k);
    assert Actor(e).Some? ==> LeavesAlone(s.calls[Actor(e).value], k);
    match e {
      case Enter(x) => assert CallOk(s, x);
      case _ =>
    }
  }

  /** Call q is a Post of type t, not older than k, and k is in its list once it has one. */
  ghost predicate GoesTo(s: State, q: nat, t: Type, k: nat) {
    q < |s.calls| && k < |s.subs| &&
    match s.calls[q]
    case Posting(u, time) => u == t && s.subs[k].created <= time
    case Delivering(time, list, _) => k in list && s.subs[k].created <= time
    case AtSelect(time, list, _, _) => k in list && s.subs[k].created <= time
    case Posted(time, list) => k in list && s.subs[k].created <= time
    case _ => false
  }

  lemma GoesToKeeps(s: State, e: Step, q: nat, t: Type, p: nat, k: nat, types: seq<Type>)
    requires Enabled(s, e) && GoesTo(s, q, t, k) && !s.stopped
    requires p < |s.calls| && s.calls[p].Subscribed? && Registered(s, p, k, types) && t in types
    ensures GoesTo(Next(s, e), q, t, k)
  {
    hide Register, Unlist;
    NextLater(s, e);
  }

  /** Neither a Stop nor an Unsubscribe of k is called in the first n steps. */
  ghost predicate NoneCalled(es: seq<Step>, n: nat, k: nat) {
    forall j :: 0 <= j < n <= |es| ==> es[j] != CallStop && es[j] != CallUnsubscribe(k)
  }

  lemma {:induction false} UntouchedUntil(es: seq<Step>, k: nat, n: nat)
    requires CanRun(Init(), es) && n <= |es| && NoneCalled(es, n, k)
    ensures CanRun(Init(), es[..n]) && Untouched(At(es, n), k)
  {
    hide Inv, LogOk, Next, Enabled, Untouched, Deletes;
    if n == 0 {
      assert Untouched(Init(), k) by {
        NothingTouched(k);
      }
    } else {
      AtNext(es, n - 1);
      UntouchedUntil(es, k, n - 1);
      UntouchedKeeps(At(es, n - 1), es[n - 1], k);
    }
  }

  lemma NothingTouched(k: nat)
    ensures Untouched(Init(), k)
  {
  }

  lemma {:induction false} OpenUntil(es: seq<Step>, i: nat, p: nat, k: nat, types: seq<Type>, n: nat)
    requires CanRun(Init(), es) && SubscribedAt(es, i, p, k, types) && i < n <= |es| && NoneCalled(es, n, k)
    ensures CanRun(Init(), es[..n]) && Open(At(es, n), p, k, types)
  {
    hide Inv, LogOk, Next, Enabled, At, Open, Untouched;
    AtNext(es, n - 1);
    if n == i + 1 {
      NewSubOpen(At(es, i), types);
    } else {
      OpenUntil(es, i, p, k, types, n - 1);
      UntouchedUntil(es, k, n - 1);
      OpenKeeps(At(es, n - 1), es[n - 1], p, k, types);
    }
  }

  lemma NewSubOpen(s: State, types: seq<Type>)
    requires Enabled(s, NewSub(types))
    ensures Open(Next(s, NewSub(types)), |s.calls|, |s.subs|, types)
  {
  }

  /** A Subscribe that has returned stays so. */
  lemma SubscribedStays(s: State, e: Step, p: nat)
    requires Enabled(s, e) && p < |s.calls| && s.calls[p].Subscribed?
    ensures p < |Next(s, e).calls| && Next(s, e).calls[p].Subscribed?
  {
    hide Register, Unlist;
    NextLater(s, e);
  }

  /** From the call of Post on, the event is on its way to k. */
  lemma {:induction false} GoesUntil(es: seq<Step>, i: nat, p: nat, k: nat, types: seq<Type>, m: nat, q: nat, t: Type, n: nat)
    requires CanRun(Init(), es) && SubscribedAt(es, i, p, k, types) && NoneCalled(es, n, k)
    requires PostedAt(es, m, q, t) && t in types && i < m < n <= |es|
    requires p < |At(es, m).calls| && At(es, m).calls[p].Subscribed?
    ensures CanRun(Init(), es[..n]) && GoesTo(At(es, n), q, t, k)
    ensures p < |At(es, n).calls| && At(es, n).calls[p].Subscribed?
  {
    hide Inv, LogOk, Next, Enabled, At, GoesTo;
    AtNext(es, n - 1);
    OpenUntil(es, i, p, k, types, n - 1);
    if n == m + 1 {
      SubscribedStays(At(es, m), es[m], p);
      PostGoes(At(es, m), t, p, k, types);
    } else {
      GoesUntil(es, i, p, k, types, m, q, t, n - 1);
      SubscribedStays(At(es, n - 1), es[n - 1], p);
      UntouchedUntil(es, k, n - 1);
      GoesToKeeps(At(es, n - 1), es[n - 1], q, t, p, k, types);
    }
  }

  lemma PostGoes(s: State, t: Type, p: nat, k: nat, types: seq<Type>)
    requires Enabled(s, NewPost(t)) && Open(s, p, k, types)
    ensures GoesTo(Next(s, NewPost(t)), |s.calls|, t, k)
  {
  }

  predicate Returned(c: Call) {
    c.Posted? || c.ErrMuxClosed?
  }

  /** A Post that has returned delivers nothing more. */
  lemma {:induction false} ReturnedIsOver(es: seq<Step>, q: nat, k: nat, n: nat)
    requires CanRun(Init(), es) && n <= |es| && CanRun(Init(), es[..n])
    requires q < |At(es, n).calls| && Returned(At(es, n).calls[q])
    ensures q < |Run(Init(), es).calls| && Run(Init(), es).calls[q] == At(es, n).calls[q]
    ensures Count(Run(Init(), es).log, q, k) == Count(At(es, n).log, q, k)
    decreases |es| - n
  {
    hide Inv, LogOk, Next, Enabled, Run, Count;
    if n < |es| {
      AtNext(es, n);
      ReturnedStays(At(es, n), es[n], q);
      ReturnedIsOver(es, q, k, n + 1);
    } else {
      assert es[..n] == es;
    }
  }

  lemma ReturnedStays(s: State, e: Step, q: nat)
    requires Enabled(s, e) && q < |s.calls| && Returned(s.calls[q])
    ensures q < |Next(s, e).calls| && Next(s, e).calls[q] == s.calls[q]
    ensures forall k: nat :: Count(Next(s, e).log, q, k) == Count(s.log, q, k)
  {
    hide Register, Unlist, Count;
    NextLater(s, e);
    OthersCount(s, e, q);
  }

  /**
   When a Post has returned, every subscription whose Subscribe had returned before the Post was
   called, for types that include the event's, heard the event exactly once, provided that no
   Unsubscribe of it and no Stop was called before the Post returned. The Post has not failed.
   */
  lemma SubscriberHears(es: seq<Step>, i: nat, p: nat, k: nat, types: seq<Type>, m: nat, q: nat, t: Type, n: nat)
    requires CanRun(Init(), es) && SubscribedAt(es, i, p, k, types) && PostedAt(es, m, q, t) && i < m < n <= |es|
    requires p < |At(es, m).calls| && At(es, m).calls[p].Subscribed? && t in types
    requires NoneCalled(es, n, k)
    requires CanRun(Init(), es[..n]) && q < |At(es, n).calls| && Returned(At(es, n).calls[q])
    ensures q < |Run(Init(), es).calls| && Run(Init(), es).calls[q].Posted?
    ensures Count(Run(Init(), es).log, q, k) == 1
  {
    hide Run, CanRun, Count, Inv, LogOk;
    GoesUntil(es, i, p, k, types, m, q, t, n);
    OpenUntil(es, i, p, k, types, n);
    InitInv();
    EmptyLog();
    RunKeeps(Init(), es[..n]);
    RunKeepsLog(Init(), es[..n]);
    OpenHeard(At(es, n), q, t, p, k, types);
    ReturnedIsOver(es, q, k, n);
  }

  lemma OpenHeard(s: State, q: nat, t: Type, p: nat, k: nat, types: seq<Type>)
    requires Inv(s) && LogOk(s) && GoesTo(s, q, t, k) && Returned(s.calls[q]) && Open(s, p, k, types)
    requires s.calls[p].Subscribed?
    ensures s.calls[q].Posted? && Count(s.log, q, k) == 1
  {
    hide Count;
    assert LogOf(s, q) && SubOk(s, k);
    assert s.calls[q].list[..|s.calls[q].list|] == s.calls[q].list;
    assert Heard(s, q, s.calls[q].time, k);
  }

  // ---------- and no other ----------

  /** What k was asked for, and when, read from the steps. */
  ghost predicate AskedFor(es: seq<Step>, n: nat, k: nat, t: Type, time: nat) {
    exists i, p, types :: 0 <= i < n <= |es| && SubscribedAt(es, i, p, k, types) && t in types && At(es, i).clock <= time
  }

  /** If k exists, its Subscribe is call p with these types, and it is listed under none but these. */
  ghost predicate OnlyAsked(s: State, p: nat, k: nat, types: seq<Type>, created: nat) {
    k < |s.subs| ==>
      && p < |s.calls| && s.subs[k].owner == p && s.subs[k].created == created
      && (s.calls[p].Subscribing? ==> s.calls[p] == Subscribing(k, types))
      && forall t :: k in Listed(s.subm, t) ==> t in types
  }

  lemma OnlyAskedKeeps(s: State, e: Step, p: nat, k: nat, types: seq<Type>, created: nat)
    requires Inv(s) && Enabled(s, e) && k < |s.subs| && OnlyAsked(s, p, k, types, created)
    ensures OnlyAsked(Next(s, e), p, k, types, created)
  {
    hide Inv, Next, Enabled, Listed;
    OwnerKeeps(s, e, p, k);
    ListsAsked(s, e, p, k, types, created);
  }

  lemma OwnerKeeps(s: State, e: Step, p: nat, k: nat)
    requires Enabled(s, e) && k < |s.subs| && p < |s.calls|
    ensures var r := Next(s, e);
            && k < |r.subs| && p < |r.calls|
            && r.subs[k].owner == s.subs[k].owner && r.subs[k].created == s.subs[k].created
            && (r.calls[p].Subscribing? ==> s.calls[p] == r.calls[p])
  {
    hide Register, Unlist, Listed;
    NextLater(s, e);
  }

  lemma ListsAsked(s: State, e: Step, p: nat, k: nat, types: seq<Type>, created: nat)
    requires Inv(s) && Enabled(s, e) && k < |s.subs| && OnlyAsked(s, p, k, types, created)
    ensures forall t :: k in Listed(Next(s, e).subm, t) ==> t in types
  {
    hide Register, Unlist, CoversLists, SubOk, CallOk, MuxOk, Inv;
    match e {
      case Enter(x) => EnterAsked(s, x, p, k, types, created);
      case Del(x) => DelAsked(s, x, k);
      case _ =>
    }
  }

  lemma DelAsked(s: State, x: nat, k: nat)
    requires Inv(s) && Enabled(s, Del(x))
    ensures forall t :: k in Listed(Next(s, Del(x)).subm, t) ==> k in Listed(s.subm, t)
  {
    UnlistRemoves(s.subm, s.calls[x].sub);
  }

  lemma EnterAsked(s: State, x: nat, p: nat, k: nat, types: seq<Type>, created: nat)
    requires Inv(s) && Enabled(s, Enter(x)) && k < |s.subs| && OnlyAsked(s, p, k, types, created)
    ensures OnlyAsked(Next(s, Enter(x)), p, k, types, created)
  {
    hide Register, Unlist;
    var r := Next(s, Enter(x));
    assert CallOk(s, x);
    forall t | k in Listed(r.subm, t)
      ensures t in types
    {
      EnterOnlyAsked(s, x, k, types, t);
    }
  }

  lemma EnterOnlyAsked(s: State, x: nat, k: nat, types: seq<Type>, t: Type)
    requires Inv(s) && Enabled(s, Enter(x)) && (s.calls[x].sub == k ==> s.calls[x].types == types)
    requires k in Listed(s.subm, t) ==> t in types
    requires k in Listed(Next(s, Enter(x)).subm, t)
    ensures t in types
  {
    hide Register, Unlist;
    var c := s.calls[x];
    RegisterAppends(s.subm, c.types, c.sub, t);
    if c.sub == k && !s.stopped {
      RegisterOnly(s.subm, types, k, t);
    }
  }

  lemma {:induction false} RegisterOnly(subm: map<Type, seq<nat>>, types: seq<Type>, sub: nat, t: Type)
    requires sub in Listed(Register(subm, types, sub).0, t)
    ensures sub in Listed(subm, t) || t in types
    decreases |types|
  {
    if types != [] && sub !in Listed(subm, types[0]) {
      RegisterOnly(subm[types[0] := Listed(subm, types[0]) + [sub]], types[1..], sub, t);
    }
  }

  /** Call q is a Post of type t made at this time, and k can be in its list only if t is in its types. */
  ghost predicate OnlyTo(s: State, q: nat, t: Type, time: nat, k: nat, types: seq<Type>) {
    q < |s.calls| &&
    match s.calls[q]
    case Posting(u, v) => u == t && v == time
    case Delivering(v, list, _) => v == time && (k in list ==> t in types)
    case AtSelect(v, list, _, _) => v == time && (k in list ==> t in types)
    case Posted(v, list) => v == time && (k in list ==> t in types)
    case ErrMuxClosed => true
    case _ => false
  }

  lemma OnlyToKeeps(s: State, e: Step, q: nat, t: Type, time: nat, p: nat, k: nat, types: seq<Type>, created: nat)
    requires Inv(s) && Enabled(s, e) && OnlyTo(s, q, t, time, k, types) && OnlyAsked(s, p, k, types, created)
    ensures OnlyTo(Next(s, e), q, t, time, k, types)
  {
    hide Register, Unlist;
    NextLater(s, e);
    assert Listed(s.subm, t) == [] || AllLive(s, Listed(s.subm, t));
  }

  lemma {:induction false} SubsGrow(es: seq<Step>, n: nat, m: nat)
    requires CanRun(Init(), es) && n <= m <= |es|
    ensures CanRun(Init(), es[..n]) && CanRun(Init(), es[..m]) && |At(es, n).subs| <= |At(es, m).subs|
    decreases m - n
  {
    hide Inv, LogOk, Next, Enabled, At;
    Prefixes(es, n);
    if n < m {
      AtNext(es, n);
      NextLater(At(es, n), es[n]);
      SubsGrow(es, n + 1, m);
    }
  }

  lemma {:induction false} OnlyAskedUntil(es: seq<Step>, i: nat, p: nat, k: nat, types: seq<Type>, n: nat)
    requires CanRun(Init(), es) && SubscribedAt(es, i, p, k, types) && n <= |es|
    ensures CanRun(Init(), es[..n]) && OnlyAsked(At(es, n), p, k, types, At(es, i).clock)
  {
    hide Inv, LogOk, Next, Enabled, At;
    if n <= i {
      SubsGrow(es, n, i);
    } else {
      AtNext(es, n - 1);
      if n == i + 1 {
        NewSubAsked(At(es, i), types);
      } else {
        hide OnlyAsked;
        OnlyAskedUntil(es, i, p, k, types, n - 1);
        SubsGrow(es, i + 1, n - 1);
        AtNext(es, i);
        NewSubAsked(At(es, i), types);
        OnlyAskedKeeps(At(es, n - 1), es[n - 1], p, k, types, At(es, i).clock);
      }
    }
  }

  lemma NewSubAsked(s: State, types: seq<Type>)
    requires Inv(s) && Enabled(s, NewSub(types))
    ensures var r := Next(s, NewSub(types)); |r.subs| == |s.subs| + 1 && OnlyAsked(r, |s.calls|, |s.subs|, types, s.clock)
  {
    assert forall t :: Listed(s.subm, t) == [] || AllLive(s, Listed(s.subm, t));
  }

  lemma {:induction false} OnlyToUntil(es: seq<Step>, i: nat, p: nat, k: nat, types: seq<Type>, m: nat, q: nat, t: Type, n: nat)
    requires CanRun(Init(), es) && SubscribedAt(es, i, p, k, types) && PostedAt(es, m, q, t) && m < n <= |es|
    ensures CanRun(Init(), es[..n]) && OnlyTo(At(es, n), q, t, At(es, m).clock, k, types)
  {
    hide Inv, LogOk, Next, Enabled, At, OnlyTo, OnlyAsked;
    AtNext(es, n - 1);
    if n == m + 1 {
      assert OnlyTo(At(es, n), q, t, At(es, m).clock, k, types) by {
        PostOnlyTo(At(es, m), t, k, types);
      }
    } else {
      OnlyToUntil(es, i, p, k, types, m, q, t, n - 1);
      OnlyAskedUntil(es, i, p, k, types, n - 1);
      OnlyToKeeps(At(es, n - 1), es[n - 1], q, t, At(es, m).clock, p, k, types, At(es, i).clock);
    }
  }

  lemma PostOnlyTo(s: State, t: Type, k: nat, types: seq<Type>)
    requires Enabled(s, NewPost(t))
    ensures OnlyTo(Next(s, NewPost(t)), |s.calls|, t, s.clock, k, types)
  {
  }

  lemma NothingAsked(es: seq<Step>)
    requires CanRun(Init(), es[..0])
    ensures At(es, 0).subs == []
  {
  }

  lemma SubAdded(s: State, e: Step, k: nat)
    requires Enabled(s, e) && |s.subs| <= k < |Next(s, e).subs|
    ensures k == |s.subs| && e.NewSub?
  {
    hide Register, Unlist;
  }

  /** Every subscription was asked for in some step. */
  lemma {:induction false} EachAskedFor(es: seq<Step>, k: nat, n: nat) returns (i: nat, p: nat, types: seq<Type>)
    requires CanRun(Init(), es) && n <= |es| && CanRun(Init(), es[..n]) && k < |At(es, n).subs|
    ensures SubscribedAt(es, i, p, k, types) && i < n
  {
    hide Inv, LogOk, Next, Enabled, CanRun, At;
    assert n > 0 by {
      NothingAsked(es);
    }
    AtNext(es, n - 1);
    if k < |At(es, n - 1).subs| {
      i, p, types := EachAskedFor(es, k, n - 1);
    } else {
      SubAdded(At(es, n - 1), es[n - 1], k);
      i, p, types := n - 1, |At(es, n - 1).calls|, es[n - 1].types;
    }
  }

  /**
   At any time, a Post has reached a subscription at most once, and only one that asked for the
   event's type no later than the Post was called.
   */
  lemma OnlySubscribersHear(es: seq<Step>, m: nat, q: nat, t: Type, k: nat)
    requires CanRun(Init(), es) && PostedAt(es, m, q, t) && Count(Run(Init(), es).log, q, k) > 0
    ensures Count(Run(Init(), es).log, q, k) == 1 && AskedFor(es, |es|, k, t, At(es, m).clock)
  {
    hide Run, CanRun, Count, Inv, LogOk;
    InitInv();
    EmptyLog();
    RunKeeps(Init(), es);
    RunKeepsLog(Init(), es);
    var s := Run(Init(), es);
    assert es[..|es|] == es;
    assert k < |s.subs| by {
      HeardInList(s, q, k);
    }
    var i, p, types := EachAskedFor(es, k, |es|);
    OnlyAskedUntil(es, i, p, k, types, |es|);
    OnlyToUntil(es, i, p, k, types, m, q, t, |es|);
    HeardInList(s, q, k);
    assert SubscribedAt(es, i, p, k, types) && t in types && At(es, i).clock <= At(es, m).clock;
  }

  /** What call q delivered to is in its list, was delivered to once, and is not newer than the event. */
  lemma HeardInList(s: State, q: nat, k: nat)
    requires Inv(s) && LogOk(s) && Count(s.log, q, k) > 0
    ensures k < |s.subs| && q < |s.calls| && Count(s.log, q, k) == 1
    ensures var c := s.calls[q];
            (c.Delivering? || c.AtSelect? || c.Posted?) && k in c.list && s.subs[k].created <= c.time
  {
    hide Count;
    assert LogOf(s, q);
    if q < |s.calls| && (s.calls[q].Delivering? || s.calls[q].AtSelect? || s.calls[q].Posted?) {
      var c := s.calls[q];
      var n := if c.Posted? then |c.list| else c.i;
      assert k in c.list[..n];
      assert Heard(s, q, c.time, k);
    }
  }

  // ---------- Stop ----------

  /** The step reads or changes the lists under the mux's mutex. */
  ghost predicate NeedsMutex(e: Step) {
    e.Enter? || e.ReadSubs? || e.Del? || e.StopLock?
  }

  /** From its Lock to its return, a Stop keeps the others from the lists, and they stay as they are. */
  lemma StopHoldsMutex(es: seq<Step>, p: nat, n: nat)
    requires CanRun(Init(), es) && n < |es| && CanRun(Init(), es[..n])
    requires p < |At(es, n).calls| && InStop(At(es, n).calls[p])
    ensures !NeedsMutex(es[n])
    ensures CanRun(Init(), es[..n + 1]) && (es[n] != Finish(p) ==> At(es, n + 1).subm == At(es, n).subm)
  {
    hide LogOk, At, CanRun;
    AtNext(es, n);
    OnlyFinishChanges(At(es, n), es[n], p);
  }

  lemma OnlyFinishChanges(s: State, e: Step, p: nat)
    requires Inv(s) && Enabled(s, e) && p < |s.calls| && InStop(s.calls[p])
    ensures !NeedsMutex(e) && (e != Finish(p) ==> Next(s, e).subm == s.subm)
  {
    hide Register, Unlist, CoversLists, MuxOk, SubOk;
    assert CallOk(s, p);
    if e.Finish? && e.p != p {
      assert CallOk(s, e.p);
    }
  }

  /** No Post has failed unless the mux is stopped. */
  ghost predicate FailsIfStopped(s: State) {
    s.stopped || forall p: nat :: p < |s.calls| ==> !s.calls[p].ErrMuxClosed?
  }

  lemma FailsKeeps(s: State, e: Step)
    requires Enabled(s, e) && FailsIfStopped(s)
    ensures FailsIfStopped(Next(s, e)) && (s.stopped ==> Next(s, e).stopped)
  {
    hide Register, Unlist, Listed;
  }

  /** A Post fails only when some Stop has finished. */
  lemma FailsOnlyStopped(es: seq<Step>, q: nat, n: nat)
    requires CanRun(Init(), es) && n <= |es| && CanRun(Init(), es[..n])
    requires q < |At(es, n).calls| && At(es, n).calls[q].ErrMuxClosed?
    ensures At(es, n).stopped
  {
    hide At, FailsIfStopped;
    FailsUntil(es, n);
    NoneFails(At(es, n), q);
  }

  lemma NoneFails(s: State, q: nat)
    requires FailsIfStopped(s) && q < |s.calls| && s.calls[q].ErrMuxClosed?
    ensures s.stopped
  {
  }

  lemma {:induction false} FailsUntil(es: seq<Step>, n: nat)
    requires CanRun(Init(), es) && n <= |es|
    ensures CanRun(Init(), es[..n]) && FailsIfStopped(At(es, n))
  {
    hide Inv, LogOk, Next, Enabled, At, FailsIfStopped;
    if n == 0 {
      NothingFails(es);
    } else {
      AtNext(es, n - 1);
      FailsUntil(es, n - 1);
      FailsKeeps(At(es, n - 1), es[n - 1]);
    }
  }

  lemma NothingFails(es: seq<Step>)
    requires CanRun(Init(), es[..0])
    ensures FailsIfStopped(At(es, 0)) && At(es, 0).clock == 0
  {
  }

  // ---------- time ----------

  function Ticks(es: seq<Step>): nat {
    if es == [] then 0 else Ticks(es[..|es| - 1]) + (if es[|es| - 1].Tick? then 1 else 0)
  }

  /** The time is the number of ticks, so each event and each subscription has that of its call. */
  lemma {:induction false} ClockCountsTicks(es: seq<Step>, n: nat)
    requires CanRun(Init(), es) && n <= |es|
    ensures CanRun(Init(), es[..n]) && At(es, n).clock == Ticks(es[..n])
  {
    hide Inv, LogOk, Next, Enabled, At, CanRun;
    if n == 0 {
      Prefixes(es, 0);
      NothingFails(es);
    } else {
      AtNext(es, n - 1);
      ClockCountsTicks(es, n - 1);
      ClockMoves(At(es, n - 1), es[n - 1]);
      assert es[..n][..n - 1] == es[..n - 1];
    }
  }

  lemma ClockMoves(s: State, e: Step)
    requires Enabled(s, e)
    ensures Next(s, e).clock == s.clock + if e.Tick? then 1 else 0
  {
    hide Register, Unlist, Listed;
  }
}
