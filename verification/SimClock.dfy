/**
 The virtual clock of common/mclock/simclock.go: a heap of timers kept as Go's container/heap
 keeps it, through the Less, Swap, Push and Pop given there, with every timer knowing its place.

 AbsTime and Duration are 64-bit and wrap around. The mutex makes each method atomic.
 */
module SimClock {

  type Int64 = x: int | -0x8000_0000_0000_0000 <= x < 0x8000_0000_0000_0000

  /** The 64-bit two's complement value of an integer. */
  function Wrap(x: int): Int64 {
    (x + 0x8000_0000_0000_0000) % 0x1_0000_0000_0000_0000 - 0x8000_0000_0000_0000
  }

  /** It leaves the number modulo 2^64 as it is. */
  lemma WrapKeeps(x: int)
    ensures (x - Wrap(x)) % 0x1_0000_0000_0000_0000 == 0
    ensures -0x8000_0000_0000_0000 <= x < 0x8000_0000_0000_0000 ==> Wrap(x) == x
  {
  }

  /** What a timer does: a send on its own channel, or a function identified by a number. */
  datatype Callback = SendTime | Call(id: nat)

  class SimTimer {
    var at: Int64
    var index: int
    const action: Callback
    var hasChannel: bool

    constructor (at: Int64, action: Callback)
      ensures this.at == at && index == 0 && this.action == action && !hasChannel
    {
      this.at := at;
      index := 0;
      this.action := action;
      hasChannel := false;
    }
  }

  // ---------- heap order, on the due times ----------

  function Parent(j: int): int
    requires j > 0
  {
    (j - 1) / 2
  }

  ghost predicate Above(a: seq<Int64>, i: int, j: int)
    requires 0 <= i < |a| && 0 <= j < |a|
  {
    a[i] <= a[j]
  }

  /** Nothing among the first n is due before its parent, leaving out the edge above `top` and
      the edges below `bottom`. */
  ghost predicate Ordered(a: seq<Int64>, n: int, top: int, bottom: int)
    requires n <= |a|
  {
    forall j :: 0 < j < n && j != top && Parent(j) != bottom ==> Above(a, Parent(j), j)
  }

  /** What is below place i is not due before what is above it. */
  ghost predicate Bridged(a: seq<Int64>, n: int, i: int)
    requires 0 <= i < n <= |a|
  {
    i > 0 ==> forall j :: 0 < j < n && Parent(j) == i ==> Above(a, Parent(i), j)
  }

  function Swapped<T>(a: seq<T>, i: nat, j: nat): seq<T>
    requires i < |a| && j < |a|
  {
    a[i := a[j]][j := a[i]]
  }

  lemma SwappedElements<T>(a: seq<T>, i: nat, j: nat)
    requires i < |a| && j < |a|
    ensures multiset(Swapped(a, i, j)) == multiset(a) && forall x :: x in a <==> x in Swapped(a, i, j)
  {
    SameElements(a, Swapped(a, i, j));
  }

  /** Moving an early entry up one place. */
  lemma SwapUp(a: seq<Int64>, n: nat, j: nat)
    requires 0 < j < n <= |a| && Ordered(a, n, j, -1) && Bridged(a, n, j) && a[j] < a[Parent(j)]
    ensures var i, b := Parent(j), Swapped(a, Parent(j), j);
            Ordered(b, n, i, -1) && Bridged(b, n, i)
  {
    var i, b := Parent(j), Swapped(a, Parent(j), j);
    forall k | 0 < k < n && k != i
      ensures Above(b, Parent(k), k)
    {
      if k != j {
        assert Above(a, Parent(k), k);
        if Parent(k) == j {
          assert Above(a, i, k);
        }
      }
    }
    if i > 0 {
      assert Above(a, Parent(i), i);
      forall k | 0 < k < n && Parent(k) == i
        ensures Above(b, Parent(i), k)
      {
        if k != j {
          assert Above(a, i, k);
        }
      }
    }
  }

  /** Moving a late entry down to the place of its earlier child. */
  lemma SwapDown(a: seq<Int64>, n: nat, i: nat, j: nat, top: int)
    requires i < n <= |a| && EarlierChild(a, n, i, j) && a[j] < a[i]
    requires Ordered(a, n, top, i) && Bridged(a, n, i) && (top == i || (top == -1 && (i > 0 ==> Above(a, Parent(i), i))))
    ensures var b := Swapped(a, i, j);
            Ordered(b, n, -1, j) && Bridged(b, n, j)
  {
    var b := Swapped(a, i, j);
    forall k | 0 < k < n && Parent(k) != j
      ensures Above(b, Parent(k), k)
    {
      if Parent(k) == i {
        if k != j {
          assert Above(a, j, k);
        }
      } else if k == i {
        assert Above(a, Parent(i), j);
      } else {
        assert Above(a, Parent(k), k);
      }
    }
    forall k | 0 < k < n && Parent(k) == j
      ensures Above(b, i, k)
    {
      assert Above(a, j, k);
    }
  }

  /** The child that heap.down compares with. */
  ghost predicate EarlierChild(a: seq<Int64>, n: nat, i: nat, j: int)
    requires n <= |a|
  {
    && i < j < n && Parent(j) == i
    && forall k :: 0 < k < n && Parent(k) == i ==> Above(a, j, k)
  }

  lemma PickChild(a: seq<Int64>, n: nat, i: nat, j: nat)
    requires n <= |a| && 2 * i + 1 < n
    requires j == if 2 * i + 2 < n && a[2 * i + 2] < a[2 * i + 1] then 2 * i + 2 else 2 * i + 1
    ensures EarlierChild(a, n, i, j)
  {
    forall k | 0 < k < n && Parent(k) == i
      ensures Above(a, j, k)
    {
      assert k == 2 * i + 1 || k == 2 * i + 2;
    }
  }

  /** Below i everything is in order: it has no children, or is not due after the earlier one. */
  lemma DownDone(a: seq<Int64>, n: nat, i: nat, top: int)
    requires i < n <= |a| && Ordered(a, n, top, i)
    requires 2 * i + 1 >= n || exists j :: EarlierChild(a, n, i, j) && a[i] <= a[j]
    ensures Ordered(a, n, top, -1)
  {
    forall k | 0 < k < n && k != top
      ensures Above(a, Parent(k), k)
    {
      if Parent(k) == i {
        var j :| EarlierChild(a, n, i, j) && a[i] <= a[j];
        assert Above(a, j, k);
      }
    }
  }

  /** The last entry in the place of entry i, which leaves the heap. */
  lemma LastTakesPlace(a: seq<Int64>, i: nat)
    requires i < |a| && Ordered(a, |a|, -1, -1)
    ensures var n, b := |a| - 1, Swapped(a, i, |a| - 1);
            && Ordered(b, n, i, i) && (i < n ==> Bridged(b, n, i))
            && Ordered(a, n, -1, -1)
  {
    var n, b := |a| - 1, Swapped(a, i, |a| - 1);
    forall j | 0 < j < n
      ensures j != i && Parent(j) != i ==> Above(b, Parent(j), j)
      ensures i > 0 && Parent(j) == i ==> Above(b, Parent(i), j)
    {
      assert Above(a, Parent(j), j);
      if i > 0 {
        assert Above(a, Parent(i), i);
      }
    }
  }

  lemma RootNeedsNoUp(a: seq<Int64>, n: nat)
    requires n <= |a|
    ensures n == 0 || Ordered(a, n, 0, -1) ==> Ordered(a, n, -1, -1)
  {
  }

  /** Only the first n places matter. */
  lemma OrderedPrefix(a: seq<Int64>, n: nat)
    requires n <= |a|
    ensures Ordered(a, n, -1, -1) <==> Ordered(a[..n], n, -1, -1)
  {
    forall j | 0 < j < n
      ensures Above(a, Parent(j), j) <==> Above(a[..n], Parent(j), j)
    {
    }
  }

  /** The root is due first. */
  lemma {:induction false} RootFirst(a: seq<Int64>, j: nat)
    requires j < |a| && Ordered(a, |a|, -1, -1)
    ensures a[0] <= a[j]
    decreases j
  {
    if j > 0 {
      assert Above(a, Parent(j), j);
      RootFirst(a, Parent(j));
    }
  }

  class Simulated {
    var now: Int64
    var scheduled: seq<SimTimer>
    /** The callbacks invoked so far, in order. */
    var invoked: seq<Callback>
    /** Every timer this clock has made. */
    ghost var timers: set<SimTimer>

    /** Every timer knows its place, and -1 means outside the heap. */
    ghost predicate Placed()
      reads this, timers
    {
      && (forall i :: 0 <= i < |scheduled| ==> scheduled[i] in timers && scheduled[i].index == i)
      && (forall t :: t in timers && t !in scheduled ==> t.index == -1)
    }

    /** The due times, by place. */
    ghost function Due(): (a: seq<Int64>)
      reads this, scheduled
      ensures |a| == |scheduled|
    {
      seq(|scheduled|, i requires 0 <= i < |scheduled| reads this, scheduled => scheduled[i].at)
    }

    ghost predicate Valid()
      reads this, timers, scheduled
    {
      && Placed()
      && Ordered(Due(), |scheduled|, -1, -1)
    }

    constructor ()
      ensures Valid() && now == 0 && scheduled == [] && invoked == [] && timers == {}
    {
      now := 0;
      scheduled := [];
      invoked := [];
      timers := {};
    }

    // ---------- simTimerHeap ----------

    method Less(i: nat, j: nat) returns (b: bool)
      requires i < |scheduled| && j < |scheduled|
      ensures b <==> scheduled[i].at < scheduled[j].at
    {
      b := scheduled[i].at < scheduled[j].at;
    }

    method Swap(i: nat, j: nat)
      requires i < |scheduled| && j < |scheduled| && Placed()
      modifies this`scheduled, timers`index
      ensures Placed() && scheduled == Swapped(old(scheduled), i, j) && Due() == Swapped(old(Due()), i, j)
      ensures multiset(scheduled) == multiset(old(scheduled))
    {
      SwappedElements(scheduled, i, j);
      scheduled := scheduled[i := scheduled[j]][j := scheduled[i]];
      scheduled[i].index := i;
      scheduled[j].index := j;
    }

    // ---------- container/heap ----------

    /** heap.up; only the first n places matter. */
    method Up(j0: nat, ghost n: nat)
      requires j0 < n <= |scheduled| && Placed()
      requires Ordered(Due(), n, j0, -1) && Bridged(Due(), n, j0)
      modifies this`scheduled, timers`index
      ensures |scheduled| == |old(scheduled)| && Placed() && Ordered(Due(), n, -1, -1)
      ensures multiset(scheduled) == multiset(old(scheduled)) && scheduled[n..] == old(scheduled[n..])
    {
      var j: nat := j0;
      while true
        invariant 0 <= j < n <= |scheduled| == |old(scheduled)| && Placed()
        invariant Ordered(Due(), n, j, -1) && Bridged(Due(), n, j)
        invariant multiset(scheduled) == multiset(old(scheduled)) && scheduled[n..] == old(scheduled[n..])
        decreases j
      {
        // Go's (0 - 1) / 2 is 0
        var i: nat := if j == 0 then 0 else (j - 1) / 2;
        if i == j {
          break;
        }
        var less := Less(j, i);
        if !less {
          assert Above(Due(), Parent(j), j);
          break;
        }
        SwapUp(Due(), n, j);
        Swap(i, j);
        j := i;
      }
    }

    /** heap.down; whether it moved anything. */
    method Down(i0: nat, n: nat) returns (moved: bool)
      requires i0 < n <= |scheduled| && Placed()
      requires Ordered(Due(), n, i0, i0) && Bridged(Due(), n, i0)
      modifies this`scheduled, timers`index
      ensures |scheduled| == |old(scheduled)| && Placed()
      ensures if moved then Ordered(Due(), n, -1, -1) else Ordered(Due(), n, i0, -1) && Bridged(Due(), n, i0)
      ensures multiset(scheduled) == multiset(old(scheduled)) && scheduled[n..] == old(scheduled[n..])
    {
      hide Ordered, Bridged, EarlierChild;
      var i: nat := i0;
      while true
        invariant i0 <= i < n <= |scheduled| == |old(scheduled)| && Placed()
        invariant Ordered(Due(), n, if i == i0 then i0 else -1, i) && Bridged(Due(), n, i)
        invariant i > i0 ==> Above(Due(), Parent(i), i)
        invariant multiset(scheduled) == multiset(old(scheduled)) && scheduled[n..] == old(scheduled[n..])
        decreases n - i
      {
        var j1 := 2 * i + 1;
        if j1 >= n {
          DownDone(Due(), n, i, if i == i0 then i0 else -1);
          break;
        }
        var j := j1;
        var j2 := j1 + 1;
        if j2 < n {
          var right := Less(j2, j1);
          if right {
            j := j2;
          }
        }
        PickChild(Due(), n, i, j);
        var less := Less(j, i);
        if !less {
          DownDone(Due(), n, i, if i == i0 then i0 else -1);
          break;
        }
        SwapDown(Due(), n, i, j, if i == i0 then i0 else -1);
        Swap(i, j);
        i := j;
      }
      return i > i0;
    }

    method HeapAppend(t: SimTimer)
      requires Placed() && t !in scheduled
      modifies this`scheduled, this`timers, t`index
      ensures Placed() && scheduled == old(scheduled) + [t] && timers == old(timers) + {t}
    {
      t.index := |scheduled|;
      scheduled := scheduled + [t];
      timers := timers + {t};
    }

    method HeapTruncate() returns (t: SimTimer)
      requires Placed() && scheduled != []
      modifies this`scheduled, timers`index
      ensures Placed() && old(scheduled) == scheduled + [t]
      ensures multiset(old(scheduled)) == multiset(scheduled) + multiset{t}
      ensures t.index == -1
    {
      var end := |scheduled| - 1;
      t := scheduled[end];
      t.index := -1;
      scheduled := scheduled[..end];
      assert t !in scheduled;
    }

    /** heap.Push */
    method HeapPush(t: SimTimer)
      requires Valid() && t !in scheduled
      modifies this`scheduled, this`timers, timers`index, t`index
      ensures Valid() && multiset(scheduled) == multiset(old(scheduled)) + multiset{t}
      ensures timers == old(timers) + {t} && t in scheduled
    {
      HeapAppend(t);
      Up(|scheduled| - 1, |scheduled|);
      assert t in multiset(scheduled);
    }

    /** heap.Pop */
    method HeapPop() returns (t: SimTimer)
      requires Valid() && scheduled != []
      modifies this`scheduled, timers`index
      ensures Valid() && t.index == -1 && multiset(scheduled) + multiset{t} == multiset(old(scheduled))
      ensures t == old(scheduled)[0]
    {
      hide Ordered, Bridged, Placed;
      RootToEnd();
      ghost var d, n := Due(), |scheduled| - 1;
      OrderedPrefix(d, n);
      t := HeapTruncate();
      assert Due() == d[..n];
    }

    /** The first half of heap.Pop: down from the root cannot be followed by up. */
    method RootToEnd()
      requires Valid() && scheduled != []
      modifies this`scheduled, timers`index
      ensures |scheduled| == |old(scheduled)| && Placed() && Ordered(Due(), |scheduled| - 1, -1, -1)
      ensures multiset(scheduled) == multiset(old(scheduled)) && scheduled[|scheduled| - 1] == old(scheduled)[0]
    {
      hide Ordered, Bridged, Placed;
      var n := |scheduled| - 1;
      LastTakesPlace(Due(), 0);
      Swap(0, n);
      if n > 0 {
        var moved := Down(0, n);
      }
      RootNeedsNoUp(Due(), n);
      assert scheduled[n..] == [scheduled[n]];
    }

    /** if !down(h, i, n) { up(h, i) } */
    method Restore(i: nat, n: nat)
      requires i < n <= |scheduled| && Placed()
      requires Ordered(Due(), n, i, i) && Bridged(Due(), n, i)
      modifies this`scheduled, timers`index
      ensures |scheduled| == |old(scheduled)| && Placed() && Ordered(Due(), n, -1, -1)
      ensures multiset(scheduled) == multiset(old(scheduled)) && scheduled[n..] == old(scheduled[n..])
    {
      hide Ordered, Bridged;
      var moved := Down(i, n);
      if !moved {
        Up(i, n);
      }
    }

    /** The timer in place i changes places with the last one, and the others are put in order. */
    method MoveToEnd(i: nat)
      requires Valid() && i < |scheduled|
      modifies this`scheduled, timers`index
      ensures |scheduled| == |old(scheduled)| && Placed() && Ordered(Due(), |scheduled| - 1, -1, -1)
      ensures multiset(scheduled) == multiset(old(scheduled))
      ensures scheduled[|scheduled| - 1] == old(scheduled)[i]
    {
      hide Ordered, Bridged;
      var n := |scheduled| - 1;
      LastTakesPlace(Due(), i);
      if n != i {
        Swap(i, n);
        ghost var rest := scheduled[n..];
        Restore(i, n);
        assert scheduled[n] == scheduled[n..][0] == rest[0];
      }
    }

    /** heap.Remove */
    method HeapRemove(i: nat) returns (t: SimTimer)
      requires Valid() && i < |scheduled|
      modifies this`scheduled, timers`index
      ensures Valid() && t.index == -1 && multiset(scheduled) + multiset{t} == multiset(old(scheduled))
      ensures t == old(scheduled)[i]
    {
      hide Ordered, Bridged;
      MoveToEnd(i);
      ghost var d := Due();
      OrderedPrefix(d, |d| - 1);
      t := HeapTruncate();
      assert Due() == d[..|d| - 1];
    }

    /** heap.Fix, after the due time at place i has changed. */
    method HeapFix(i: nat)
      requires i < |scheduled| && Placed()
      requires Ordered(Due(), |scheduled|, i, i) && Bridged(Due(), |scheduled|, i)
      modifies this`scheduled, timers`index
      ensures Valid() && multiset(scheduled) == multiset(old(scheduled))
    {
      Restore(i, |scheduled|);
    }

    // ---------- the clock ----------

    /** AfterFunc, and the scheduling half of NewTimer. */
    method Schedule(d: Int64, f: Callback) returns (t: SimTimer)
      requires Valid()
      modifies this`scheduled, this`timers, timers`index
      ensures Valid() && fresh(t) && timers == old(timers) + {t}
      ensures t.at == Wrap(now + d) && t.action == f && !t.hasChannel
      ensures multiset(scheduled) == multiset(old(scheduled)) + multiset{t}
    {
      var at := Wrap(now + d);
      t := new SimTimer(at, f);
      HeapPush(t);
    }

    method NewTimer(d: Int64) returns (t: SimTimer)
      requires Valid()
      modifies this`scheduled, this`timers, timers`index
      ensures Valid() && fresh(t) && timers == old(timers) + {t}
      ensures t.at == Wrap(now + d) && t.action == SendTime && t.hasChannel
      ensures multiset(scheduled) == multiset(old(scheduled)) + multiset{t}
    {
      t := Schedule(d, SendTime);
      t.hasChannel := true;
    }

    /** Stop: whether the timer was pending; afterwards it is not. */
    method Stop(t: SimTimer) returns (stopped: bool)
      requires Valid() && t in timers
      modifies this`scheduled, timers`index
      ensures Valid() && t.index == -1 && t !in scheduled
      ensures stopped <==> t in old(scheduled)
      ensures multiset(old(scheduled)) == multiset(scheduled) + if stopped then multiset{t} else multiset{}
    {
      if t.index < 0 {
        return false;
      }
      assert t in scheduled;
      var removed := HeapRemove(t.index);
      t.index := -1;
      return true;
    }

    /** Reset: false where the source panics, on a timer without a channel. */
    method Reset(t: SimTimer, d: Int64) returns (ok: bool)
      requires Valid() && t in timers
      modifies this`scheduled, this`timers, timers`index, t`at
      ensures Valid() && ok == t.hasChannel && timers == old(timers)
      ensures !ok ==> scheduled == old(scheduled) && t.at == old(t.at)
      ensures ok ==> t.at == Wrap(now + d) && t in scheduled
      ensures ok ==>
        multiset(scheduled) == multiset(old(scheduled)) + if t in old(scheduled) then multiset{} else multiset{t}
    {
      if !t.hasChannel {
        return false;
      }
      ghost var a := Due();
      t.at := Wrap(now + d);
      if t.index < 0 {
        assert Due() == a;
        HeapPush(t);
      } else {
        assert t in scheduled;
        assert Due() == a[t.index := t.at];
        Rekey(a, t.index, t.at);
        HeapFix(t.index);
        SameElements(scheduled, old(scheduled));
      }
      return true;
    }

    /** Take the timer that is due first off the heap. */
    method PopFirst() returns (t: SimTimer)
      requires Valid() && scheduled != []
      modifies this`scheduled, timers`index
      ensures Valid() && t == old(scheduled)[0] && t in timers && t !in scheduled
      ensures multiset(old(scheduled)) == multiset(scheduled) + multiset{t}
      ensures forall u :: u in scheduled ==> u in old(scheduled) && t.at <= u.at
    {
      hide Ordered, Due;
      FirstDue();
      ghost var before := scheduled;
      t := HeapPop();
      SameElements(before, scheduled + [t]);
    }

    /** The locked half of Run: take every timer due by `end` off the heap, earliest first. */
    method Collect(end: Int64) returns (ghost fired: seq<SimTimer>, todo: seq<Callback>)
      requires Valid()
      modifies this`scheduled, timers`index
      ensures Valid() && todo == Actions(fired)
      ensures multiset(old(scheduled)) == multiset(scheduled) + multiset(fired)
      ensures forall t :: t in fired ==> t.at <= end && t in timers && t !in scheduled
      ensures forall t :: t in scheduled ==> t.at > end
      ensures forall i, j :: 0 <= i < j < |fired| ==> fired[i].at <= fired[j].at && fired[i] != fired[j]
    {
      hide Ordered, Due, Placed;
      todo := [];
      fired := [];
      while |scheduled| > 0 && scheduled[0].at <= end
        invariant Valid() && todo == Actions(fired)
        invariant multiset(old(scheduled)) == multiset(scheduled) + multiset(fired)
        invariant forall t :: t in fired ==> t.at <= end && t in timers && t !in scheduled
        invariant forall t, u :: t in fired && u in scheduled ==> t.at <= u.at
        invariant forall i, j :: 0 <= i < j < |fired| ==> fired[i].at <= fired[j].at && fired[i] != fired[j]
        decreases |scheduled|
      {
        var t := PopFirst();
        fired := fired + [t];
        todo := todo + [t.action];
      }
      FirstDue();
    }

    /** The timer in place 0 is due first. */
    lemma FirstDue()
      requires Valid()
      ensures forall u :: u in scheduled ==> scheduled[0].at <= u.at && u in timers
    {
      forall u | u in scheduled
        ensures scheduled[0].at <= u.at && u in timers
      {
        RootFirst(Due(), u.index);
      }
    }

    /**
     Run: collect every timer due by now + d in the order of their due times, move the clock,
     then call what was collected.
     */
    method Run(d: Int64) returns (ghost fired: seq<SimTimer>)
      requires Valid()
      modifies this`now, this`scheduled, this`invoked, timers`index
      ensures Valid() && now == Wrap(old(now) + d)
      ensures multiset(old(scheduled)) == multiset(scheduled) + multiset(fired)
      ensures forall t :: t in fired <==> t in old(scheduled) && t.at <= now
      ensures forall t :: t in scheduled <==> t in old(scheduled) && t.at > now
      ensures forall i, j :: 0 <= i < j < |fired| ==> fired[i].at <= fired[j].at && fired[i] != fired[j]
      ensures forall t :: t in fired ==> t.index == -1
      ensures invoked == old(invoked) + Actions(fired)
    {
      var end := Wrap(now + d);
      var todo;
      fired, todo := Collect(end);
      SplitElements(old(scheduled), scheduled, fired);
      now := end;
      CallAll(todo);
    }

    /** for _, fn := range do { fn() } */
    method CallAll(todo: seq<Callback>)
      modifies this`invoked
      ensures invoked == old(invoked) + todo
    {
      for k := 0 to |todo|
        invariant invoked == old(invoked) + todo[..k]
      {
        invoked := invoked + [todo[k]];
      }
    }

    /** ActiveTimers */
    method ActiveTimers() returns (n: nat)
      ensures n == |scheduled|
    {
      n := |scheduled|;
    }
  }

  /** What the timers do, in order. */
  ghost function Actions(ts: seq<SimTimer>): seq<Callback> {
    seq(|ts|, i requires 0 <= i < |ts| => ts[i].action)
  }

  /** Changing one due time leaves everything not next to it in order. */
  lemma Rekey(a: seq<Int64>, i: nat, v: Int64)
    requires i < |a| && Ordered(a, |a|, -1, -1)
    ensures var b := a[i := v];
            Ordered(b, |a|, i, i) && Bridged(b, |a|, i)
  {
    var b := a[i := v];
    forall j | 0 < j < |a| && j != i && Parent(j) != i
      ensures Above(b, Parent(j), j)
    {
      assert Above(a, Parent(j), j);
    }
    if i > 0 {
      forall j | 0 < j < |a| && Parent(j) == i
        ensures Above(b, Parent(i), j)
      {
        assert Above(a, Parent(i), i) && Above(a, i, j);
      }
    }
  }

  lemma SplitElements<T>(s: seq<T>, t: seq<T>, u: seq<T>)
    requires multiset(s) == multiset(t) + multiset(u)
    ensures forall x :: x in s <==> x in t || x in u
  {
    assert multiset(t + u) == multiset(s);
    SameElements(s, t + u);
  }

  lemma SameElements<T>(s: seq<T>, t: seq<T>)
    requires multiset(s) == multiset(t)
    ensures |s| == |t| && forall x :: x in s <==> x in t
  {
    assert |multiset(s)| == |multiset(t)|;
    forall x
      ensures x in s <==> x in t
    {
      assert x in s <==> x in multiset(s);
      assert x in t <==> x in multiset(t);
    }
  }
}
