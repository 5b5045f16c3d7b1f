/**
 What common/mclock/alarm.go promises, on values: the due time of the pending timer, if any, and
 whether a notification waits. AlarmModel proves that the alarm and its clock follow this.
 */
module AlarmSpec {
  import opened Wrappers

  datatype State = State(now: int, due: Option<int>, full: bool)

  function Max(a: int, b: int): int {
    if a < b then b else a
  }

  /** A pending timer due strictly later than now and no later than asked for is kept. */
  function Schedule(s: State, time: int): State {
    if s.due.Some? && s.now < s.due.value <= time then s
    else s.(due := Some(Max(time, s.now)))
  }

  function Stop(s: State): State {
    s.(due := None, full := false)
  }

  /** The clock moves by d, and every timer due by then has been called. */
  function Run(s: State, d: int): State {
    var end := s.now + d;
    if s.due.Some? && s.due.value <= end then State(end, None, true) else s.(now := end)
  }

  /** A value is taken from the channel. */
  function Receive(s: State): State {
    s.(full := false)
  }

  datatype Op = DoSchedule(time: int) | DoRun(d: nat) | DoStop | DoReceive

  function Step(s: State, op: Op): State {
    match op
    case DoSchedule(t) => Schedule(s, t)
    case DoRun(d) => Run(s, d)
    case DoStop => Stop(s)
    case DoReceive => Receive(s)
  }

  function Steps(s: State, ops: seq<Op>): State
    decreases |ops|
  {
    if ops == [] then s else Steps(Step(s, ops[0]), ops[1..])
  }

  /** Neither a Stop nor a read of the channel. */
  predicate Undisturbed(ops: seq<Op>) {
    forall i :: 0 <= i < |ops| ==> ops[i].DoSchedule? || ops[i].DoRun?
  }

  /** The promise of a Schedule(t): a notification waits, or the timer is due by t and has not been missed. */
  predicate Holds(s: State, t: int) {
    s.full || (s.due.Some? && s.now <= s.due.value <= t)
  }

  /** A Schedule to a time past t comes while the timer is due exactly now, before the clock has run it. */
  predicate Postpones(s: State, t: int, op: Op) {
    op.DoSchedule? && !s.full && s.due == Some(s.now) && op.time > t
  }

  predicate NeverPostpones(s: State, t: int, ops: seq<Op>)
    decreases |ops|
  {
    ops == [] || (!Postpones(s, t, ops[0]) && NeverPostpones(Step(s, ops[0]), t, ops[1..]))
  }

  /** The promise holds now and after every step. */
  predicate AlwaysHolds(s: State, t: int, ops: seq<Op>)
    decreases |ops|
  {
    Holds(s, t) && (ops == [] || AlwaysHolds(Step(s, ops[0]), t, ops[1..]))
  }

  /**
   Whatever schedules and runs follow, the promise is kept throughout exactly when no Schedule to a
   later time finds the timer due right then.
   */
  lemma {:induction false} StaysDueIff(s: State, t: int, ops: seq<Op>)
    requires Undisturbed(ops) && Holds(s, t)
    ensures AlwaysHolds(s, t, ops) <==> NeverPostpones(s, t, ops)
    decreases |ops|
  {
    if ops != [] && Holds(Step(s, ops[0]), t) {
      StaysDueIff(Step(s, ops[0]), t, ops[1..]);
    }
  }

  /** A pending timer is not overdue: every step keeps this, and a fresh alarm has it. */
  predicate Ahead(s: State) {
    s.due.Some? ==> s.now <= s.due.value
  }

  /** Running the clock up to t now would leave a notification; with t past, one is there. */
  predicate Arrives(s: State, t: int) {
    if s.now <= t then Run(s, t - s.now).full else s.full
  }

  predicate AlwaysArrives(s: State, t: int, ops: seq<Op>)
    decreases |ops|
  {
    Arrives(s, t) && (ops == [] || AlwaysArrives(Step(s, ops[0]), t, ops[1..]))
  }

  /**
   What a user sees of it: at every moment of a run of schedules and clock runs, running the clock
   to t would give a notification, exactly when no Schedule past t finds the timer due right then.
   */
  lemma {:induction false} ArrivesIff(s: State, t: int, ops: seq<Op>)
    requires Undisturbed(ops) && Ahead(s) && Arrives(s, t)
    ensures AlwaysArrives(s, t, ops) <==> NeverPostpones(s, t, ops)
    decreases |ops|
  {
    if ops != [] && Arrives(Step(s, ops[0]), t) {
      ArrivesIff(Step(s, ops[0]), t, ops[1..]);
    }
  }

  /** So a deadline that is ahead is never postponed. */
  lemma {:induction false} StaysDue(s: State, t: int, ops: seq<Op>)
    requires Undisturbed(ops) && Holds(s, t) && NeverPostpones(s, t, ops)
    ensures Holds(Steps(s, ops), t)
    decreases |ops|
  {
    if ops != [] {
      StaysDue(Step(s, ops[0]), t, ops[1..]);
    }
  }

  /**
   After Schedule(t), whatever schedules and runs follow without such a postponement, once the clock
   has reached t (or the time of the call, if later) a notification is in the channel, or its timer
   is due right now.
   */
  lemma NotificationArrives(s: State, t: int, ops: seq<Op>)
    requires Undisturbed(ops) && NeverPostpones(Schedule(s, t), Max(t, s.now), ops)
    ensures var e := Steps(Schedule(s, t), ops);
            Max(t, s.now) < e.now ==> e.full
    ensures var e := Steps(Schedule(s, t), ops);
            Max(t, s.now) <= e.now && ops != [] && ops[|ops| - 1].DoRun? ==> e.full
  {
    var a, m := Schedule(s, t), Max(t, s.now);
    StaysDue(a, m, ops);
    if ops != [] && ops[|ops| - 1].DoRun? {
      var k := |ops| - 1;
      assert ops == ops[..k] + [ops[k]];
      PrefixNeverPostpones(a, m, ops, k);
      StaysDue(a, m, ops[..k]);
      StepsAppend(a, ops[..k], ops[k]);
    }
  }

  lemma {:induction false} StepsAppend(s: State, ops: seq<Op>, op: Op)
    ensures Steps(s, ops + [op]) == Step(Steps(s, ops), op)
    decreases |ops|
  {
    if ops != [] {
      assert (ops + [op])[0] == ops[0] && (ops + [op])[1..] == ops[1..] + [op];
      StepsAppend(Step(s, ops[0]), ops[1..], op);
    } else {
      assert ([op])[1..] == [];
    }
  }

  lemma {:induction false} PrefixNeverPostpones(s: State, t: int, ops: seq<Op>, k: nat)
    requires k <= |ops| && NeverPostpones(s, t, ops)
    ensures NeverPostpones(s, t, ops[..k])
    decreases k
  {
    if k > 0 {
      assert ops[..k][0] == ops[0] && ops[..k][1..] == ops[1..][..k - 1];
      PrefixNeverPostpones(Step(s, ops[0]), t, ops[1..], k - 1);
    }
  }

  /** A run in which it is: the timer due exactly now is replaced by a later one, and the promise is lost. */
  lemma AtDeadlineIsPostponed()
    ensures var e := Steps(State(0, None, false), [DoSchedule(10), DoSchedule(0), DoSchedule(20), DoRun(10)]);
            e == State(10, Some(20), false)
  {
  }
}
