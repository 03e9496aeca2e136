/** What a firing puts in the action queue, and that the days `Timers` speaks of exist. */
module Firings {
  import opened Device
  import opened Registry
  import opened Box
  import opened BoxRuns
  import opened Timers

  /** The slots among the first `n` that fire in one callback, in slot order. */
  function FiringSlots(d: Dev, n: nat, mode: nat, prevSec: nat, c: Clock): (ks: seq<nat>)
    requires n <= |d.timers|
    ensures forall i :: 0 <= i < |ks| ==> ks[i] < n && SlotFires(d, ks[i], mode, prevSec, c)
    ensures forall i, j :: 0 <= i < j < |ks| ==> ks[i] < ks[j]
    ensures forall k :: 0 <= k < n && SlotFires(d, k, mode, prevSec, c) ==> k in ks
  {
    if n == 0 then []
    else FiringSlots(d, n - 1, mode, prevSec, c) + (if SlotFires(d, n - 1, mode, prevSec, c) then [n - 1] else [])
  }

  /** A callback queues one action for each slot that fires, in slot order, and no other. */
  lemma {:induction false} OneActionPerFiring(d: Dev, n: nat, mode: nat, prevSec: nat, c: Clock)
    requires n <= |d.timers|
    ensures var ks, cs := FiringSlots(d, n, mode, prevSec, c), TickCommands(d, n, mode, prevSec, c);
      |cs| == |ks| && forall i :: 0 <= i < |ks| ==> cs[i] == TimerCommand(d.id, d.timers[ks[i]].value)
  {
    hide SlotFires, TimerCommand;
    if n > 0 {
      OneActionPerFiring(d, n - 1, mode, prevSec, c);
    }
  }

  /** The actions of device `i` in a sweep. */
  function DeviceCommands(r: Reg, clocks: seq<Clock>, i: nat): seq<Command>
    requires i < |clocks| == |r.online|
  {
    TickCommands(r.online[i], MAX_TIMERS, r.workMode, PrevSec(r.secToday, clocks, i), clocks[i])
  }

  /** How many actions the first `n` devices queue. */
  ghost function ActionCount(r: Reg, clocks: seq<Clock>, n: nat): nat
    requires n <= |clocks| == |r.online|
  {
    if n == 0 then 0 else ActionCount(r, clocks, n - 1) + |DeviceCommands(r, clocks, n - 1)|
  }

  /** In the queue, the actions of one device stand together, behind those of the devices before
      it. */
  lemma {:induction false} ActionsOfDevice(r: Reg, clocks: seq<Clock>, i: nat, n: nat)
    requires i < n <= |clocks| == |r.online|
    ensures var cs, m := SweepCommands(r, clocks, n), ActionCount(r, clocks, i);
      && |cs| == ActionCount(r, clocks, n) && m + |DeviceCommands(r, clocks, i)| <= |cs|
      && cs[m..m + |DeviceCommands(r, clocks, i)|] == DeviceCommands(r, clocks, i)
  {
    SweepLength(r, clocks, n - 1);
    var before, last := SweepCommands(r, clocks, n - 1), DeviceCommands(r, clocks, n - 1);
    assert SweepCommands(r, clocks, n) == before + last;
    if i < n - 1 {
      ActionsOfDevice(r, clocks, i, n - 1);
      assert ActionCount(r, clocks, n) == ActionCount(r, clocks, n - 1) + |last|;
      hide *;
      var m, k := ActionCount(r, clocks, i), |DeviceCommands(r, clocks, i)|;
      assert (before + last)[m..m + k] == before[m..m + k];
    } else {
      assert ActionCount(r, clocks, n) == |before| + |last|;
      hide *;
      assert (before + last)[|before|..|before| + |last|] == last;
    }
  }

  lemma {:induction false} SweepLength(r: Reg, clocks: seq<Clock>, n: nat)
    requires n <= |clocks| == |r.online|
    ensures |SweepCommands(r, clocks, n)| == ActionCount(r, clocks, n)
  {
    hide TickCommands;
    if n > 0 {
      SweepLength(r, clocks, n - 1);
    }
  }

  /** A timer fires in a sweep exactly if its slot is among the firing slots, once; its device queues
      one action for each of them, and at that slot's place it is the timer's. */
  lemma {:induction false} FiringIsQueued(b: BoxState, s: Step, id: u32, k: nat, i: nat)
    requires Enabled(b, s) && s.Tick? && k < MAX_TIMERS && i < |b.reg.online| && b.reg.online[i].id == id
    ensures var d := b.reg.online[i];
      var ks := FiringSlots(d, MAX_TIMERS, b.reg.workMode, PrevSec(b.reg.secToday, s.clocks, i), s.clocks[i]);
      && (FiresAt(b, s, id, k, i) <==> k in ks)
      && (forall p, q :: 0 <= p < |ks| && 0 <= q < |ks| && ks[p] == k && ks[q] == k ==> p == q)
      && |DeviceCommands(b.reg, s.clocks, i)| == |ks|
      && (forall p :: 0 <= p < |ks| && ks[p] == k ==>
            DeviceCommands(b.reg, s.clocks, i)[p] == TimerCommand(id, d.timers[k].value))
  {
    var d := b.reg.online[i];
    OneActionPerFiring(d, MAX_TIMERS, b.reg.workMode, PrevSec(b.reg.secToday, s.clocks, i), s.clocks[i]);
  }

  /** Sweeps six seconds apart, to the end of the day, in the mode in force. */
  lemma {:induction false} WatchedDay(b: BoxState, last: Clock, id: u32, k: nat, t: Timer) returns (steps: seq<Step>)
    requires IsOnline(b, id) && ValidClock(last) && Bit(t.workMode, b.reg.workMode)
    ensures ValidRun(b, steps) && SteadyDay(b, last, steps, id, k) && MaskedIn(b, steps, t)
    ensures Allocations(b, steps) == 0
    decreases DAY_SECONDS - last.sec
  {
    hide Bit, Apply;
    steps := [];
    if last.sec + MAX_GAP < DAY_SECONDS {
      var c := last.(sec := last.sec + MAX_GAP);
      var s := Tick(seq(|b.reg.online|, _ => c));
      StaysOnline(b, s, id);
      assert PrevClock(last, s.clocks, |s.clocks|) == c;
      var rest := WatchedDay(Apply(b, s), c, id, k, t);
      steps := [s] + rest;
      assert steps[0] == s && steps[1..] == rest;
    }
  }

  lemma {:induction false} StaysOnline(b: BoxState, s: Step, id: u32)
    requires Enabled(b, s) && s.Tick? && IsOnline(b, id)
    ensures IsOnline(Apply(b, s), id) && Apply(b, s).reg.workMode == b.reg.workMode
  {
    EditedIs(b, s);
    var i := IndexOf(b.reg.online, id);
    EditedId(b, s, i);
    assert Apply(b, s).reg.online[i].id == id;
  }
}
