/** Timers in the terms of a clock face, and over any number of days. */
module EveryDay {
  import opened Device
  import opened Registry
  import opened Box
  import opened BoxRuns
  import opened Timers

  // ---------------------------------------------------------------- the time of day

  /** An armed timer fires at a reading exactly if its mask carries the mode, its weekday is set, and
      a clock showed its hour, minute and second 0 to 5 seconds ago. */
  lemma {:induction false} FiresAtItsTime(t: Timer, mode: nat, c: Clock)
    requires t.min < 60 && t.sec < 60
    ensures Fires(Slot(t, true, false), mode, c)
       <==> Bit(t.workMode, mode) && MatchesDay(t, c) && Recent(t, c)
  {
    hide Bit, MatchesDay, Shows;
    if TimerSecond(t) <= c.sec <= TimerSecond(t) + 5 {
      TimerShows(t, TimerSecond(t));
      assert ShowsBack(t, c, c.sec - TimerSecond(t));
    }
    if Recent(t, c) {
      var back :| 0 <= back <= 5 && back <= c.sec && ShowsBack(t, c, back);
      TimerShows(t, c.sec - back);
    }
  }

  predicate ShowsBack(t: Timer, c: Clock, back: int) {
    0 <= back <= c.sec && Shows(c.sec - back, t.hour, t.min, t.sec)
  }

  /** A clock showed the timer's time 0 to 5 seconds before the reading. */
  ghost predicate Recent(t: Timer, c: Clock) {
    exists back :: 0 <= back <= 5 && back <= c.sec && ShowsBack(t, c, back)
  }

  /** Bit `w` of the weekday byte stands for the weekday `w`, and weekdays follow each other; day 0,
      the first of January 1970, was a Thursday. */
  lemma {:induction false} WeekDays(c: Clock)
    ensures WeekDay(Clock(0, c.sec)) == 4
    ensures WeekDay(Clock(c.day + 1, c.sec)) == (if WeekDay(c) == 6 then 0 else WeekDay(c) + 1)
  {
  }

  // ---------------------------------------------------------------- a day and what it leaves

  /** A sweep later in the day on which the timer cannot fire leaves the slot alone. */
  lemma {:induction false} IdleTick(b: BoxState, last: Clock, s: Step, id: u32, k: nat, slot: Slot<Timer>)
    requires Inv(b) && Enabled(b, s) && SteadyTick(s, last) && k < MAX_TIMERS && b.reg.secToday == last.sec
    requires AllHave(b, id, k, slot) && IsOnline(b, id)
    requires !slot.active || slot.expired || !MatchesDay(slot.value, last)
    ensures AllHave(Apply(b, s), id, k, slot) && !FiresOn(b, s, id, k, last.day)
  {
    hide Apply, Inv, All, AllHave, FiresOn, Bit, MatchesDay, ArmedAt;
    var i := IndexOf(b.reg.online, id);
    DeviceTick(b, s, id, k, slot, i);
    SameDayArmed(b, last, s, i, slot);
    SameWeekDay(slot.value, last, s.clocks[i]);
  }

  /** A timer that cannot fire today stays as it is and does not fire for the rest of the day. */
  lemma {:induction false} IdleRest(b: BoxState, last: Clock, steps: seq<Step>, id: u32, k: nat, slot: Slot<Timer>)
    requires Inv(b) && ValidRun(b, steps) && Ceiling(b.reg.nextId) + Allocations(b, steps) <= U32
    requires k < MAX_TIMERS && SteadyDay(b, last, steps, id, k) && b.reg.secToday == last.sec
    requires AllHave(b, id, k, slot) && (!slot.active || slot.expired || !MatchesDay(slot.value, last))
    ensures AllHave(Run(b, steps), id, k, slot) && FireCount(b, steps, id, k, last.day) == 0
    decreases |steps|
  {
    hide Apply, Inv, AllHave, FiresOn, Bit, MatchesDay, IsOnline;
    if steps != [] {
      var s, b', last' := steps[0], Apply(b, steps[0]), LastReading(last, steps[0]);
      StepInv(b, s);
      StepNextId(b, s);
      MarkerStep(b, last, s);
      if s.Tick? {
        IdleTick(b, last, s, id, k, slot);
        SameWeekDay(slot.value, last, last');
      } else {
        OnlineKnown(b, id);
        HasStep(b, s, id, k, slot);
        NoTickNoFire(b, s, id, k, last.day);
      }
      IdleRest(b', last', steps[1..], id, k, slot);
    }
  }

  /** A sweep that an armed repeating timer fires in, or not yet. */
  lemma {:induction false} ArmedTickLeaves(b: BoxState, last: Clock, s: Step, id: u32, k: nat, t: Timer)
    requires Inv(b) && Enabled(b, s) && SteadyTick(s, last) && k < MAX_TIMERS && b.reg.secToday == last.sec
    requires AllHave(b, id, k, Slot(t, true, false)) && IsOnline(b, id) && !OneShot(t)
    requires Bit(t.workMode, b.reg.workMode) && MatchesDay(t, last) && last.sec < TimerSecond(t)
    ensures AllHave(Apply(b, s), id, k, Slot(t, true, TimerSecond(t) <= s.clocks[0].sec))
  {
    hide Apply, Inv, Bit, All, AllHave, FiresOn, Fires, MatchesDay, TimerSecond, OneShot, ArmedAt;
    var slot, i, c := Slot(t, true, false), IndexOf(b.reg.online, id), s.clocks[0];
    assert s.clocks[i] == c && c.day == last.day && last.sec <= c.sec <= last.sec + MAX_GAP;
    DeviceTick(b, s, id, k, slot, i);
    SameDayArmed(b, last, s, i, slot);
    SameWeekDay(t, last, c);
    FiresInWindow(t, b.reg.workMode, c);
  }

  /** Once its second has passed, an armed repeating timer is active and expired. */
  lemma {:induction false} ArmedLeaves(b: BoxState, last: Clock, steps: seq<Step>, id: u32, k: nat, t: Timer)
    requires Inv(b) && ValidRun(b, steps) && Ceiling(b.reg.nextId) + Allocations(b, steps) <= U32
    requires k < MAX_TIMERS && SteadyDay(b, last, steps, id, k) && b.reg.secToday == last.sec && !OneShot(t)
    requires AllHave(b, id, k, Slot(t, true, false)) && MaskedIn(b, steps, t) && MatchesDay(t, last)
    requires last.sec < TimerSecond(t) && TimerSecond(t) + MAX_GAP <= DAY_SECONDS
    ensures AllHave(Run(b, steps), id, k, Slot(t, true, true))
    decreases |steps|
  {
    hide Apply, Inv, AllHave, Bit, MatchesDay, TimerSecond, IsOnline, OneShot;
    if steps != [] {
      var s, b', last' := steps[0], Apply(b, steps[0]), LastReading(last, steps[0]);
      StepInv(b, s);
      StepNextId(b, s);
      MarkerStep(b, last, s);
      if s.Tick? {
        ArmedTickLeaves(b, last, s, id, k, t);
        SameWeekDay(t, last, last');
        if s.clocks[0].sec >= TimerSecond(t) {
          IdleRest(b', last', steps[1..], id, k, Slot(t, true, true));
        } else {
          ArmedLeaves(b', last', steps[1..], id, k, t);
        }
      } else {
        OnlineKnown(b, id);
        HasStep(b, s, id, k, Slot(t, true, false));
        ArmedLeaves(b', last', steps[1..], id, k, t);
      }
    }
  }

  /** What the first sweep of a day makes of the head's timer: armed on a matching weekday, expired
      on any other, and fired if its second has come. */
  lemma {:induction false} HeadRollover(b: BoxState, yesterday: Clock, s: Step, id: u32, k: nat, slot: Slot<Timer>)
    requires Inv(b) && FirstSweep(b, yesterday, s) && k < MAX_TIMERS && IsHead(b, id)
    requires AllHave(b, id, k, slot) && slot.active && !OneShot(slot.value)
    requires Bit(slot.value.workMode, b.reg.workMode)
    ensures var t, c := slot.value, s.clocks[0];
      && AllHave(Apply(b, s), id, k, Slot(t, true, !MatchesDay(t, c) || TimerSecond(t) <= c.sec))
      && (FiresOn(b, s, id, k, c.day) <==> MatchesDay(t, c) && TimerSecond(t) <= c.sec)
  {
    hide Apply, Inv, AllHave, FiresOn, Bit, MatchesDay, TimerSecond, OneShot;
    var c := s.clocks[0];
    assert Rollover(b.reg.secToday, c) && c.sec <= FIRE_WINDOW;
    DeviceTick(b, s, id, k, slot, 0);
  }

  /** Which sweeps re-arm: an expired timer of the head with a matching weekday whose time is not now is
      armed by a sweep exactly if the reading is in the first ten seconds of a day and before the last
      reading. */
  lemma {:induction false} RearmedBy(b: BoxState, s: Step, id: u32, k: nat, t: Timer)
    requires Inv(b) && Enabled(b, s) && s.Tick? && s.clocks != [] && k < MAX_TIMERS && IsHead(b, id)
    requires AllHave(b, id, k, Slot(t, true, true)) && MatchesDay(t, s.clocks[0])
    requires s.clocks[0].sec < TimerSecond(t) || s.clocks[0].sec > TimerSecond(t) + 5
    ensures var c := s.clocks[0];
      AllHave(Apply(b, s), id, k, Slot(t, true, !(c.sec < b.reg.secToday && c.sec <= 9)))
  {
    hide Apply, Inv, AllHave, FiresOn, Bit, MatchesDay, TimerSecond, OneShot;
    DeviceTick(b, s, id, k, Slot(t, true, true), 0);
  }

  /** A day of the head's timer: one firing on a matching weekday and none on another, and at the end
      of the day it is active as before. */
  lemma {:induction false} HeadDay(
      b: BoxState, yesterday: Clock, s: Step, steps: seq<Step>, id: u32, k: nat, slot: Slot<Timer>, due: nat)
    requires Inv(b) && FirstSweep(b, yesterday, s) && ValidRun(Apply(b, s), steps) && k < MAX_TIMERS
    requires Ceiling(b.reg.nextId) + Allocations(Apply(b, s), steps) <= U32
    requires IsHead(b, id) && SteadyDay(Apply(b, s), s.clocks[0], steps, id, k)
    requires Bit(slot.value.workMode, b.reg.workMode) && MaskedIn(Apply(b, s), steps, slot.value)
    requires AllHave(b, id, k, slot) && slot.active && !OneShot(slot.value)
    requires due == 3600 * slot.value.hour + 60 * slot.value.min + slot.value.sec && due <= DAY_SECONDS - MAX_GAP
    ensures ValidRun(b, [s] + steps) && AllHave(Run(b, [s] + steps), id, k, Slot(slot.value, true, true))
    ensures FireCount(b, [s] + steps, id, k, s.clocks[0].day) == (if MatchesDay(slot.value, s.clocks[0]) then 1 else 0)
    ensures MatchesDay(slot.value, s.clocks[0]) ==> FiresFirst(b, [s] + steps, id, k, due, s.clocks[0].day)
  {
    assert due == TimerSecond(slot.value);
    hide Apply, Inv, AllHave, FiresOn, Bit, MatchesDay, TimerSecond, OneShot, SteadyDay, MaskedIn;
    var c, b', t := s.clocks[0], Apply(b, s), slot.value;
    assert ([s] + steps)[0] == s && ([s] + steps)[1..] == steps;
    StepInv(b, s);
    StepNextId(b, s);
    MarkerStep(b, yesterday, s);
    assert b'.reg.secToday == c.sec;
    HeadRollover(b, yesterday, s, id, k, slot);
    if !MatchesDay(t, c) || TimerSecond(t) <= c.sec {
      IdleRest(b', c, steps, id, k, Slot(t, true, true));
    } else {
      ArmedLeaves(b', c, steps, id, k, t);
    }
    if MatchesDay(t, c) {
      FiresEveryMatchingDay(b, yesterday, s, steps, id, k, slot, due);
    }
  }

  // ---------------------------------------------------------------- any number of days

  /** A day: the last reading before it, its first sweep, the rest of it. */
  datatype Day = Day(yesterday: Clock, first: Step, rest: seq<Step>)

  /** Days that follow each other, with the device first in the queue at each first sweep and online
      in between, nobody changing the timer, and the mask carrying the mode at every sweep. */
  ghost predicate HeadDays(b: BoxState, days: seq<Day>, id: u32, k: nat, t: Timer)
    decreases |days|
  {
    days != [] ==>
      var d := days[0];
      && FirstSweep(b, d.yesterday, d.first) && IsHead(b, id) && Bit(t.workMode, b.reg.workMode)
      && ValidRun(Apply(b, d.first), d.rest) && MaskedIn(Apply(b, d.first), d.rest, t)
      && Ceiling(b.reg.nextId) + Allocations(Apply(b, d.first), d.rest) <= U32
      && SteadyDay(Apply(b, d.first), d.first.clocks[0], d.rest, id, k)
      && ValidRun(b, [d.first] + d.rest)
      && HeadDays(Run(b, [d.first] + d.rest), days[1..], id, k, t)
  }

  /** On each of the days: exactly one firing, at the first sweep that reaches second `due`, if the
      weekday matches, and none if not. */
  ghost predicate FiresAsSet(b: BoxState, days: seq<Day>, id: u32, k: nat, t: Timer, due: nat)
    requires k < MAX_TIMERS && HeadDays(b, days, id, k, t)
    decreases |days|
  {
    days != [] ==>
      var d := days[0];
      var steps, c := [d.first] + d.rest, d.first.clocks[0];
      && FireCount(b, steps, id, k, c.day) == (if MatchesDay(t, c) then 1 else 0)
      && (MatchesDay(t, c) ==> FiresFirst(b, steps, id, k, due, c.day))
      && FiresAsSet(Run(b, steps), days[1..], id, k, t, due)
  }

  /** Over any number of days a repeating timer of the head fires exactly once on each matching
      weekday, at its hour, minute and second, and on no other. */
  lemma {:induction false} FiresEveryDay(
      b: BoxState, days: seq<Day>, id: u32, k: nat, slot: Slot<Timer>, due: nat)
    requires Inv(b) && k < MAX_TIMERS && HeadDays(b, days, id, k, slot.value)
    requires AllHave(b, id, k, slot) && slot.active && !OneShot(slot.value)
    requires due == 3600 * slot.value.hour + 60 * slot.value.min + slot.value.sec && due <= DAY_SECONDS - MAX_GAP
    ensures FiresAsSet(b, days, id, k, slot.value, due)
    decreases |days|
  {
    hide Apply, Inv, AllHave, Bit, MatchesDay, OneShot, SteadyDay, MaskedIn, FireCount, FiresFirst;
    if days != [] {
      var d := days[0];
      HeadDay(b, d.yesterday, d.first, d.rest, id, k, slot, due);
      AfterDay(b, d.first, d.rest);
      FiresEveryDay(Run(b, [d.first] + d.rest), days[1..], id, k, Slot(slot.value, true, true), due);
    }
  }

  lemma {:induction false} AfterDay(b: BoxState, s: Step, steps: seq<Step>)
    requires Inv(b) && Enabled(b, s) && s.Tick? && ValidRun(Apply(b, s), steps) && ValidRun(b, [s] + steps)
    requires Ceiling(b.reg.nextId) + Allocations(Apply(b, s), steps) <= U32
    ensures Inv(Run(b, [s] + steps))
  {
    hide Apply, Inv;
    assert ([s] + steps)[0] == s && ([s] + steps)[1..] == steps;
    StepInv(b, s);
    StepNextId(b, s);
    RunInv(Apply(b, s), steps);
  }
}
