/**
 The alarm of common/mclock/alarm.go on the virtual clock: one reusable timer, and a channel
 with one slot that it fills when it fires.

 The clock is shared: other timers of it may be made, stopped, reset and fired at any time, but
 nobody else schedules this alarm's send function or holds its timers.
 */
module AlarmModel {
  import opened SimClock
  import A = AlarmSpec
  import opened Wrappers

  /** newDeadline.Sub(now) then now.Add(d) is newDeadline again, wrapping included. */
  lemma SubThenAdd(t: Int64, now: Int64)
    ensures Wrap(now as int + Wrap(t as int - now as int) as int) == t
  {
  }

  class Alarm {
    const clock: Simulated
    /** The method value e.send, as the clock knows it. */
    const send: Callback
    /** Whether the one-slot channel holds a notification. */
    var full: bool
    var timer: SimTimer?
    var deadline: Int64

    /** The pending timers of the clock that will call this alarm. */
    ghost function Pending(): set<SimTimer>
      reads clock
    {
      set t | t in clock.scheduled && t.action == send
    }

    /** At most one pending timer is the alarm's, namely `timer`, and it is due at `deadline`. */
    ghost predicate Consistent()
      reads this, clock, clock.timers, clock.scheduled, timer
    {
      && clock.Valid() && send.Call?
      && (forall t :: t in Pending() ==> t == timer && t.at == deadline)
      && (timer != null ==> timer in clock.timers && timer.action == send && !timer.hasChannel)
    }

    /** A deadline still ahead has a pending timer. */
    ghost predicate Armed()
      reads this, clock
    {
      timer != null && deadline > clock.now ==> timer in clock.scheduled
    }

    ghost predicate Valid()
      reads this, clock, clock.timers, clock.scheduled, timer
    {
      Consistent() && Armed() && clock.now >= 0
    }

    /** The alarm as AlarmSpec has it. */
    ghost function Abs(): A.State
      reads this, clock
    {
      A.State(clock.now, if Pending() == {} then None else Some(deadline as int), full)
    }

    /** NewAlarm. */
    constructor (clock: Simulated, send: Callback)
      requires clock.Valid() && clock.now >= 0 && send.Call?
      requires forall t :: t in clock.scheduled ==> t.action != send
      ensures Valid() && this.clock == clock && this.send == send && !full && timer == null
    {
      this.clock := clock;
      this.send := send;
      full := false;
      timer := null;
      deadline := 0;
    }

    /** A notification already waiting is not doubled. */
    method Send()
      modifies this`full
      ensures full
    {
      if !full {
        full := true;
      }
    }

    /** if e.timer != nil { e.timer.Stop() } */
    method StopTimer()
      requires Consistent()
      modifies clock`scheduled, clock.timers`index
      ensures clock.Valid() && Pending() == {}
    {
      if timer != null {
        var stopped := clock.Stop(timer);
        StillOwned(old(clock.scheduled), clock.scheduled, timer, stopped);
      }
      assert Pending() <= old(Pending());
    }

    method Stop()
      requires Consistent()
      modifies this`full, this`deadline, clock`scheduled, clock.timers`index
      ensures Consistent() && !full && deadline == 0 && Pending() == {}
      ensures clock.now >= 0 ==> Valid() && Abs() == A.Stop(old(Abs()))
    {
      StopTimer();
      deadline := 0;
      full := false;
    }

    /** The deadline that Schedule(time) leaves. */
    ghost function NextDeadline(time: Int64): Int64
      reads this, clock
    {
      if timer != null && deadline > clock.now && deadline <= time then deadline
      else if time < clock.now then clock.now else time
    }

    /** e.clock.AfterFunc(d, e.send) */
    method Arm(d: Int64) returns (t: SimTimer)
      requires clock.Valid() && Pending() == {}
      modifies clock`scheduled, clock`timers, clock.timers`index
      ensures clock.Valid() && t in clock.timers && t.action == send && !t.hasChannel && fresh(t)
      ensures t.at == Wrap(clock.now + d) && Pending() == {t} && fresh(clock.timers - old(clock.timers))
    {
      t := clock.Schedule(d, send);
      SplitElements(clock.scheduled, old(clock.scheduled), [t]);
      assert forall u :: u in old(clock.scheduled) ==> u.action != send by {
        assert forall u :: u in old(clock.scheduled) && u.action == send ==> u in old(Pending());
      }
    }

    /**
     From any consistent state, Schedule leaves the alarm armed unless it keeps a deadline ahead
     whose timer is gone; from a valid state it always leaves exactly one pending timer.
     */
    method Schedule(time: Int64)
      requires Consistent()
      modifies this`timer, this`deadline, clock`scheduled, clock`timers, clock.timers`index
      ensures Consistent() && timer != null && deadline == old(NextDeadline(time))
      ensures fresh(clock.timers - old(clock.timers))
      ensures timer in clock.scheduled
         <==> !old(timer != null && clock.now < deadline <= time && timer !in clock.scheduled)
      ensures old(Valid()) ==> Valid() && Pending() == {timer} && timer.at == deadline
      ensures old(Valid()) ==> Abs() == A.Schedule(old(Abs()), time)
    {
      var now := clock.now;
      var newDeadline := time;
      if timer != null {
        if deadline > now && deadline <= newDeadline {
          return;
        }
      }
      StopTimer();
      var d: Int64 := 0;
      if newDeadline < now {
        newDeadline := now;
      } else {
        d := Wrap(newDeadline as int - now as int);
      }
      SubThenAdd(newDeadline, now);
      timer := Arm(d);
      deadline := newDeadline;
    }

    /** Run on the clock, with the calls of e.send that it makes. */
    method RunClock(d: Int64)
      requires Consistent()
      modifies this`full, clock`now, clock`scheduled, clock`invoked, clock.timers`index
      ensures Consistent() && clock.now == Wrap(old(clock.now) + d)
      ensures Pending() == set t | t in old(Pending()) && t.at > clock.now
      ensures full <==> old(full) || old(exists t :: t in Pending() && t.at <= Wrap(clock.now + d))
      ensures Abs() == A.Run(old(Abs()), clock.now - old(clock.now))
      ensures old(Valid()) && clock.now >= old(clock.now) ==> Valid()
    {
      ghost var due := exists t :: t in Pending() && t.at <= Wrap(clock.now + d);
      var from := |clock.invoked|;
      ghost var fired := clock.Run(d);
      assert send in Actions(fired) <==> due by {
        if due {
          var t :| t in old(clock.scheduled) && t.action == send && t.at <= clock.now;
          assert t in fired;
          var i :| 0 <= i < |fired| && fired[i] == t;
          assert Actions(fired)[i] == send;
        }
        if send in Actions(fired) {
          var i :| 0 <= i < |fired| && Actions(fired)[i] == send;
          assert fired[i] in fired;
        }
      }
      CallSends(from);
      assert clock.invoked[from..] == Actions(fired);
    }

    /** A value is read from the channel. */
    method Receive() returns (got: bool)
      requires Consistent()
      modifies this`full
      ensures Consistent() && (old(Valid()) ==> Valid())
      ensures got == old(full) && Abs() == A.Receive(old(Abs()))
    {
      got := full;
      full := false;
    }

    /** Another user of the clock schedules a call of its own. */
    method OtherAfterFunc(d: Int64, f: Callback) returns (t: SimTimer)
      requires Consistent() && f != send
      modifies clock`scheduled, clock`timers, clock.timers`index
      ensures Consistent() && (old(Valid()) ==> Valid()) && Abs() == old(Abs()) && Pending() == old(Pending())
    {
      t := clock.Schedule(d, f);
      SplitElements(clock.scheduled, old(clock.scheduled), [t]);
      assert Pending() == old(Pending());
    }

    /** Another user stops a timer that is not the alarm's. */
    method OtherStop(t: SimTimer) returns (stopped: bool)
      requires Consistent() && t in clock.timers && t.action != send
      modifies clock`scheduled, clock.timers`index
      ensures Consistent() && (old(Valid()) ==> Valid()) && Abs() == old(Abs()) && Pending() == old(Pending())
    {
      stopped := clock.Stop(t);
      StillOwned(old(clock.scheduled), clock.scheduled, t, stopped);
      assert Pending() == old(Pending());
    }

    /** Another user resets a timer that is not the alarm's. */
    method OtherReset(t: SimTimer, d: Int64) returns (ok: bool)
      requires Consistent() && t in clock.timers && t.action != send
      modifies clock`scheduled, clock`timers, clock.timers`index, t`at
      ensures Consistent() && (old(Valid()) ==> Valid()) && Abs() == old(Abs()) && Pending() == old(Pending())
    {
      ok := clock.Reset(t, d);
      if ok {
        SplitElements(clock.scheduled, old(clock.scheduled), if t in old(clock.scheduled) then [] else [t]);
      }
      assert Pending() == old(Pending());
    }

    /** The calls that Run makes of this alarm's send, from a place in the record of calls on. */
    method CallSends(from: nat)
      requires from <= |clock.invoked|
      modifies this`full
      ensures full <==> old(full) || send in clock.invoked[from..]
    {
      for k := from to |clock.invoked|
        invariant full <==> old(full) || send in clock.invoked[from..k]
      {
        assert clock.invoked[from..k + 1] == clock.invoked[from..k] + [clock.invoked[k]];
        if clock.invoked[k] == send {
          Send();
        }
      }
      assert clock.invoked[from..|clock.invoked|] == clock.invoked[from..];
    }
  }

  /** Which timers are pending after a Stop. */
  lemma StillOwned(before: seq<SimTimer>, after: seq<SimTimer>, t: SimTimer, stopped: bool)
    requires multiset(before) == multiset(after) + if stopped then multiset{t} else multiset{}
    ensures forall u :: u in after ==> u in before
    ensures forall u :: u in before && u != t ==> u in after
  {
    SplitElements(before, after, if stopped then [t] else []);
  }

  /**
   A clock that is run backwards can leave a fired deadline ahead of it: the next Schedule then
   keeps that deadline, and no timer is pending.
   */
  method NegativeRunLosesTheAlarm() returns (alarm: Alarm)
    ensures alarm.timer != null && alarm.timer !in alarm.clock.scheduled && alarm.deadline > alarm.clock.now
  {
    alarm := FiredAtFive();
    alarm.RunClock(-3);
    assert alarm.Pending() == {};
    alarm.Schedule(9);
  }

  /** An alarm whose deadline was 5 and whose clock shows 5. */
  method FiredAtFive() returns (alarm: Alarm)
    ensures fresh(alarm) && fresh(alarm.clock) && fresh(alarm.clock.timers) && alarm.Consistent() && alarm.Pending() == {}
    ensures alarm.timer != null && alarm.deadline == 5 && alarm.clock.now == 5
  {
    var clock := new Simulated();
    alarm := new Alarm(clock, Call(0));
    alarm.Schedule(5);
    alarm.RunClock(5);
    assert alarm.Pending() == {};
  }
}
