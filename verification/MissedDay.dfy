/** A run from start-up on which a daily timer behind the head of the queue misses its second day,
    while the same timer on the head does not. */
module MissedDay {
  import opened Device
  import opened Registry
  import opened Box
  import opened BoxRuns
  import opened Timers

  /** At midnight, every weekday, in every mode. */
  const DAILY := Timer(0, 0xFF, 1, 0, 0, 0, 0x7F, 0, 0, 0)

  const ARMED: Slot<Timer> := Slot(DAILY, true, false)
  const EXPIRED: Slot<Timer> := Slot(DAILY, true, true)

  const FIRST := CzInfo(0, 0, [1, 0, 0, 0, 0, 0, 0, 0])
  const SECOND := CzInfo(0, 0, [2, 0, 0, 0, 0, 0, 0, 0])

  /** One sweep over two devices, with one reading. */
  function Sweep(c: Clock): Step {
    Tick([c, c])
  }

  const SETUP: seq<Step> := [CzRegister(0, 0, FIRST), CzRegister(0, 0, SECOND),
                             SetRecord(1, TimerRecord(DAILY)), SetRecord(2, TimerRecord(DAILY))]

  /** Two devices are online, with these timers in their first slots. */
  ghost predicate Two(b: BoxState, head: Slot<Timer>, other: Slot<Timer>) {
    && Inv(b) && b.reg.workMode == 0
    && |b.reg.online| == 2 && b.reg.online[0].id == 1 && b.reg.online[1].id == 2
    && AllHave(b, 1, 0, head) && AllHave(b, 2, 0, other)
  }

  // ---------------------------------------------------------------- setting up

  lemma {:induction false} FirstOnline(b: BoxState)
    requires b == INITIAL_BOX
    ensures var b' := Apply(b, CzRegister(0, 0, FIRST));
      && Inv(b') && b'.reg.workMode == 0 && b'.reg.secToday == 0 && b'.reg.offline == [] && b'.reg.nextId == 2
      && b'.reg.online == [NewDev(1, CZ_DRIVER, Info(0, 0, FIRST.mac))]
      && |b'.cz| == 1 && b'.cz[0].info == FIRST
  {
    hide Inv, NewDev, LinkageCommands;
    StartInv();
    StepInv(b, CzRegister(0, 0, FIRST));
    assert [] + [NewDev(1, CZ_DRIVER, Info(0, 0, FIRST.mac))] == [NewDev(1, CZ_DRIVER, Info(0, 0, FIRST.mac))];
  }

  lemma {:induction false} SecondOnline(b: BoxState, d: Dev)
    requires Inv(b) && b.reg.workMode == 0 && b.reg.secToday == 0 && b.reg.offline == [] && b.reg.nextId == 2
    requires b.reg.online == [d] && |b.cz| == 1 && b.cz[0].info == FIRST
    ensures var b' := Apply(b, CzRegister(0, 0, SECOND));
      && Inv(b') && b'.reg.workMode == 0 && b'.reg.secToday == 0 && b'.reg.offline == []
      && b'.reg.online == [d, NewDev(2, CZ_DRIVER, Info(0, 0, SECOND.mac))]
  {
    StepInv(b, CzRegister(0, 0, SECOND));
    assert FIRST.mac[0] != SECOND.mac[0];
    hide Inv, NewDev, LinkageCommands;
    assert CzIndexOfMac(b.cz, SECOND.mac) == 1;
  }

  lemma {:induction false} TimerSet(b: BoxState, d: Dev, e: Dev, id: u32)
    requires Inv(b) && b.reg.workMode == 0 && b.reg.secToday == 0 && b.reg.offline == []
    requires b.reg.online == [d, e] && d.id == 1 && e.id == 2 && 1 <= id <= 2
    ensures var b' := Apply(b, SetRecord(id, TimerRecord(DAILY)));
      && Inv(b') && b'.reg.workMode == 0 && b'.reg.secToday == 0 && b'.reg.offline == []
      && |b'.reg.online| == 2 && b'.reg.online[0].id == 1 && b'.reg.online[1].id == 2
      && b'.reg.online[0].timers[0] == (if id == 1 then ARMED else d.timers[0])
      && b'.reg.online[1].timers[0] == (if id == 2 then ARMED else e.timers[0])
  {
    SetStepInv(b, id, TimerRecord(DAILY));
    hide Inv;
    var i := IndexOf(b.reg.online, id);
    assert i == id - 1;
  }

  lemma {:induction false} Ready()
    ensures ValidRun(INITIAL_BOX, SETUP)
    ensures Two(Run(INITIAL_BOX, SETUP), ARMED, ARMED) && Run(INITIAL_BOX, SETUP).reg.secToday == 0
  {
    hide Apply, Inv, NewDev;
    var b1 := Apply(INITIAL_BOX, SETUP[0]);
    FirstOnline(INITIAL_BOX);
    var d, e := NewDev(1, CZ_DRIVER, Info(0, 0, FIRST.mac)), NewDev(2, CZ_DRIVER, Info(0, 0, SECOND.mac));
    SecondOnline(b1, d);
    var b2 := Apply(b1, SETUP[1]);
    NewId(1, Info(0, 0, FIRST.mac));
    NewId(2, Info(0, 0, SECOND.mac));
    TimerSet(b2, d, e, 1);
    var b3 := Apply(b2, SETUP[2]);
    assert b3.reg.online == [b3.reg.online[0], b3.reg.online[1]];
    TimerSet(b3, b3.reg.online[0], b3.reg.online[1], 2);
    var b4 := Apply(b3, SETUP[3]);
    FourSteps(INITIAL_BOX, SETUP, b1, b2, b3, b4);
  }

  lemma {:induction false} NewId(id: u32, info: Info)
    ensures NewDev(id, CZ_DRIVER, info).id == id
  {
  }

  lemma {:induction false} FourSteps(b: BoxState, s: seq<Step>, b1: BoxState, b2: BoxState, b3: BoxState, b4: BoxState)
    requires |s| == 4 && Enabled(b, s[0]) && b1 == Apply(b, s[0]) && Enabled(b1, s[1]) && b2 == Apply(b1, s[1])
    requires Enabled(b2, s[2]) && b3 == Apply(b2, s[2]) && Enabled(b3, s[3]) && b4 == Apply(b3, s[3])
    ensures ValidRun(b, s) && Run(b, s) == b4
  {
    hide Apply, Enabled;
    var s1, s2, s3 := s[1..], s[2..], s[3..];
    assert s1[1..] == s2 && s2[1..] == s3 && s3[1..] == [];
    assert s1[0] == s[1] && s2[0] == s[2] && s3[0] == s[3];
    assert ValidRun(b3, s3) && Run(b3, s3) == b4;
    assert ValidRun(b2, s2) && Run(b2, s2) == b4;
    assert ValidRun(b1, s1) && Run(b1, s1) == b4;
  }

  // ---------------------------------------------------------------- the sweeps

  /** Set for midnight, every weekday, repeating, in mode 0. */
  ghost predicate Midnight(t: Timer) {
    (forall c: Clock :: MatchesDay(t, c)) && Bit(t.workMode, 0) && !OneShot(t) && TimerSecond(t) == 0
  }

  lemma {:induction false} DailyIsMidnight()
    ensures Midnight(DAILY)
  {
    forall c: Clock ensures MatchesDay(DAILY, c) {
      var w := WeekDay(c);
      assert w == 0 || w == 1 || w == 2 || w == 3 || w == 4 || w == 5 || w == 6;
    }
  }

  /** What a reading does to a midnight timer that a rollover re-arms or not. */
  function After(slot: Slot<Timer>, rollover: bool, c: Clock): Slot<Timer> {
    if c.sec <= FIRE_WINDOW && (rollover || !slot.expired) then slot.(expired := true)
    else if rollover then slot.(expired := false)
    else slot
  }

  lemma {:induction false} DailySlot(slot: Slot<Timer>, prevSec: nat, c: Clock)
    requires Midnight(slot.value) && slot.active
    ensures var armed := Armed(slot, prevSec, c); var fires := Fires(armed, 0, c);
      && (fires <==> c.sec <= FIRE_WINDOW && (Rollover(prevSec, c) || !slot.expired))
      && (if fires then AfterFiring(armed) else armed) == After(slot, Rollover(prevSec, c), c)
  {
    assert MatchesDay(slot.value, c);
    hide MatchesDay, Bit, TimerSecond, OneShot;
  }

  lemma {:induction false} OneTick(b: BoxState, c: Clock, i: nat, slot: Slot<Timer>)
    requires Inv(b) && b.reg.workMode == 0 && |b.reg.online| == 2 && i < 2
    requires AllHave(b, b.reg.online[i].id, 0, slot) && Midnight(slot.value) && slot.active
    ensures var rollover := i == 0 && Rollover(b.reg.secToday, c); var id := b.reg.online[i].id;
      && AllHave(Apply(b, Sweep(c)), id, 0, After(slot, rollover, c))
      && (FiresOn(b, Sweep(c), id, 0, c.day) <==> c.sec <= FIRE_WINDOW && (rollover || !slot.expired))
  {
    hide Apply, Inv, Fires, Armed, AfterFiring, AllHave, FiresOn, After, Midnight;
    var s := Sweep(c);
    DeviceTick(b, s, b.reg.online[i].id, 0, slot, i);
    DailySlot(slot, PrevSec(b.reg.secToday, s.clocks, i), c);
  }

  lemma {:induction false} TwoStay(b: BoxState, c: Clock)
    requires Inv(b) && |b.reg.online| == 2
    ensures var r, q := Apply(b, Sweep(c)).reg, b.reg.online;
      && Inv(Apply(b, Sweep(c))) && r.workMode == b.reg.workMode && r.secToday == c.sec
      && |r.online| == 2 && r.online[0].id == q[0].id && r.online[1].id == q[1].id
  {
    hide Inv, Ticked, SweepCommands;
    TickStepInv(b, [c, c]);
    TickedSame(b.reg.online[0], b.reg.workMode, b.reg.secToday, c);
    TickedSame(b.reg.online[1], b.reg.workMode, c.sec, c);
  }

  lemma {:induction false} TwoTick(b: BoxState, c: Clock, head: Slot<Timer>, other: Slot<Timer>)
    requires Two(b, head, other) && Midnight(head.value) && head.active && Midnight(other.value) && other.active
    ensures var b' := Apply(b, Sweep(c)); var rollover := Rollover(b.reg.secToday, c);
      && Two(b', After(head, rollover, c), After(other, false, c)) && b'.reg.secToday == c.sec
      && (FiresOn(b, Sweep(c), 1, 0, c.day) <==> c.sec <= FIRE_WINDOW && (rollover || !head.expired))
      && (FiresOn(b, Sweep(c), 2, 0, c.day) <==> c.sec <= FIRE_WINDOW && !other.expired)
  {
    hide Apply, Inv, AllHave, FiresOn, After, Midnight;
    OneTick(b, c, 0, head);
    OneTick(b, c, 1, other);
    TwoStay(b, c);
  }

  /** The last second of a day, then the first of the next, twice. */
  const EVE := Clock(0, 86399)
  const DAY1 := Clock(1, 0)
  const EVE1 := Clock(1, 86399)
  const DAY2 := Clock(2, 0)

  const FOUR_SWEEPS: seq<Step> := [Sweep(EVE), Sweep(DAY1), Sweep(EVE1), Sweep(DAY2)]

  /** From start-up: both daily timers fire on the first day; on the second only that of the head. */
  lemma {:induction false} SecondDayMissed()
    ensures ValidRun(INITIAL_BOX, SETUP)
    ensures var b := Run(INITIAL_BOX, SETUP);
      && b.reg.online != [] && b.reg.online[0].id == 1
      && ValidRun(b, FOUR_SWEEPS)
      && FireCount(b, FOUR_SWEEPS, 1, 0, 1) == 1 && FireCount(b, FOUR_SWEEPS, 2, 0, 1) == 1
      && FireCount(b, FOUR_SWEEPS, 1, 0, 2) == 1 && FireCount(b, FOUR_SWEEPS, 2, 0, 2) == 0
  {
    Ready();
    DailyIsMidnight();
    hide Apply, Inv, FiresOn, AllHave, Run, SETUP, Midnight;
    var b := Run(INITIAL_BOX, SETUP);
    TwoTick(b, EVE, ARMED, ARMED);
    var b1 := Apply(b, Sweep(EVE));
    TwoTick(b1, DAY1, ARMED, ARMED);
    var b2 := Apply(b1, Sweep(DAY1));
    TwoTick(b2, EVE1, EXPIRED, EXPIRED);
    var b3 := Apply(b2, Sweep(EVE1));
    TwoTick(b3, DAY2, EXPIRED, EXPIRED);
    var b4 := Apply(b3, Sweep(DAY2));
    FourSteps(b, FOUR_SWEEPS, b1, b2, b3, b4);
    forall id, day: nat | 1 <= id <= 2 && 1 <= day <= 2
      ensures FireCount(b, FOUR_SWEEPS, id, 0, day)
           == (if day == 1 && FiresOn(b1, Sweep(DAY1), id, 0, 1) then 1 else 0)
            + (if day == 2 && FiresOn(b3, Sweep(DAY2), id, 0, 2) then 1 else 0)
    {
      FourCounts(b, b1, b2, b3, b4, id, day);
    }
  }

  lemma {:induction false} OtherDay(b: BoxState, c: Clock, id: u32, day: nat)
    requires |b.reg.online| == 2 && c.day != day
    ensures !FiresOn(b, Sweep(c), id, 0, day)
  {
  }

  lemma {:induction false} FourCounts(
      b: BoxState, b1: BoxState, b2: BoxState, b3: BoxState, b4: BoxState, id: u32, day: nat)
    requires |b.reg.online| == 2 && b1 == Apply(b, Sweep(EVE)) && |b1.reg.online| == 2 && b2 == Apply(b1, Sweep(DAY1))
    requires |b2.reg.online| == 2 && b3 == Apply(b2, Sweep(EVE1)) && |b3.reg.online| == 2
    requires b4 == Apply(b3, Sweep(DAY2)) && !FiresOn(b2, Sweep(EVE1), id, 0, 1) && 1 <= day <= 2
    ensures ValidRun(b, FOUR_SWEEPS)
    ensures FireCount(b, FOUR_SWEEPS, id, 0, day)
         == (if day == 1 && FiresOn(b1, Sweep(DAY1), id, 0, 1) then 1 else 0)
          + (if day == 2 && FiresOn(b3, Sweep(DAY2), id, 0, 2) then 1 else 0)
  {
    FourSteps(b, FOUR_SWEEPS, b1, b2, b3, b4);
    OtherDay(b, EVE, id, day);
    if day == 1 {
      OtherDay(b3, DAY2, id, day);
    } else {
      OtherDay(b1, DAY1, id, day);
      OtherDay(b2, EVE1, id, day);
    }
    hide Apply, FiresOn;
    var s, s1, s2, s3 := FOUR_SWEEPS, FOUR_SWEEPS[1..], FOUR_SWEEPS[2..], FOUR_SWEEPS[3..];
    assert s1[1..] == s2 && s2[1..] == s3 && s3[1..] == [];
    assert s[0] == Sweep(EVE) && s1[0] == Sweep(DAY1) && s2[0] == Sweep(EVE1) && s3[0] == Sweep(DAY2);
    assert ValidRun(b3, s3) && ValidRun(b2, s2) && ValidRun(b1, s1);
    var fourth := if FiresOn(b3, Sweep(DAY2), id, 0, day) then 1 else 0;
    assert FireCount(b3, s3, id, 0, day) == fourth;
    assert FireCount(b2, s2, id, 0, day) == fourth;
    assert FireCount(b1, s1, id, 0, day) == fourth + if FiresOn(b1, Sweep(DAY1), id, 0, day) then 1 else 0;
  }
}
