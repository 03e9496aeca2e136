/** When timers fire: at most once a day on every device, and on exactly which of its matching
    days. */
module Timers {
  import opened Device
  import opened Registry
  import opened Box
  import opened BoxRuns

  // ---------------------------------------------------------------- what holds of every device

  ghost predicate All(r: Reg, p: Dev -> bool) {
    (forall i :: 0 <= i < |r.online| ==> p(r.online[i])) && (forall i :: 0 <= i < |r.offline| ==> p(r.offline[i]))
  }

  lemma {:induction false} OnlineAll(r: Reg, driver: u32, info: Info, p: Dev -> bool)
    requires All(r, p) && p(NewDev(r.nextId, driver, info))
    ensures All(Online(r, driver, info), p)
  {
  }

  lemma {:induction false} OfflineAll(r: Reg, id: u32, p: Dev -> bool)
    requires All(r, p)
    ensures All(Offline(r, id), p)
  {
  }

  lemma {:induction false} SweptAll(r: Reg, vs: seq<VsDev>, p: Dev -> bool)
    requires All(r, p)
    ensures All(SweptReg(r, vs), p)
    decreases |vs|
  {
    if vs != [] {
      OfflineAll(r, vs[0].id, p);
      SweptAll(if vs[0].idle > MAX_IDLE then Offline(r, vs[0].id) else r, vs[1..], p);
    }
  }

  /** The steps that change device records in place. */
  predicate Edits(s: Step) {
    s.SetRecord? || s.DeleteRecord? || s.Tick?
  }

  lemma {:induction false} StepAll(b: BoxState, s: Step, p: Dev -> bool)
    requires Enabled(b, s) && All(b.reg, p)
    requires forall driver, info :: p(NewDev(b.reg.nextId, driver, info))
    requires Edits(s) ==> forall i :: 0 <= i < |b.reg.online| ==> p(EditedAt(b, s, i))
    ensures All(Apply(b, s).reg, p)
  {
    match s
    case VsRegister(ip, info) =>
      OnlineAll(b.reg, VS_DRIVER, Info(info.cls, info.interface, PadMac(info.mac)), p);
    case CzRegister(addr, ep, info) =>
      OnlineAll(b.reg, CZ_DRIVER, Info(info.cls, info.interface, info.mac), p);
    case VsSweep => SweptAll(b.reg, b.vs, p);
    case SetRecord(id, v) => EditedAll(b, s, p);
    case DeleteRecord(id, kind, k) => EditedAll(b, s, p);
    case Tick(clocks) => EditedAll(b, s, p);
    case _ =>
  }

  /** The `i`-th online device after a step that edits records. */
  function EditedAt(b: BoxState, s: Step, i: nat): Dev
    requires Enabled(b, s) && Edits(s) && i < |b.reg.online|
  {
    match s
    case SetRecord(id, v) =>
      if i == IndexOf(b.reg.online, id) && RecordId(v) < SlotCount(KindOf(v)) then Stored(b.reg.online[i], v)
      else b.reg.online[i]
    case DeleteRecord(id, kind, k) =>
      if i == IndexOf(b.reg.online, id) && k < SlotCount(kind) && IsActive(b.reg.online[i], kind, k)
      then Cleared(b.reg.online[i], kind, k)
      else b.reg.online[i]
    case Tick(clocks) =>
      Ticked(b.reg.online[i], b.reg.workMode, PrevSec(b.reg.secToday, clocks, i), clocks[i])
  }

  lemma {:induction false} EditedIs(b: BoxState, s: Step)
    requires Enabled(b, s) && Edits(s)
    ensures Apply(b, s).reg.offline == b.reg.offline && |Apply(b, s).reg.online| == |b.reg.online|
    ensures forall i :: 0 <= i < |b.reg.online| ==> Apply(b, s).reg.online[i] == EditedAt(b, s, i)
  {
  }

  lemma {:induction false} EditedAll(b: BoxState, s: Step, p: Dev -> bool)
    requires Enabled(b, s) && Edits(s) && All(b.reg, p)
    requires forall i :: 0 <= i < |b.reg.online| ==> p(EditedAt(b, s, i))
    ensures All(Apply(b, s).reg, p)
  {
    EditedIs(b, s);
    forall i | 0 <= i < |b.reg.online| ensures p(Apply(b, s).reg.online[i]) {
      assert p(EditedAt(b, s, i));
    }
  }

  // ---------------------------------------------------------------- readings of the clock

  function PrevClock(last: Clock, clocks: seq<Clock>, i: nat): Clock
    requires i <= |clocks|
  {
    if i == 0 then last else clocks[i - 1]
  }

  /** The readings of one sweep follow the last reading and never go back. */
  ghost predicate ClocksFrom(last: Clock, clocks: seq<Clock>) {
    forall i :: 0 <= i < |clocks| ==> NotAfter(PrevClock(last, clocks, i), clocks[i])
  }

  function LastReading(last: Clock, s: Step): Clock {
    if s.Tick? then PrevClock(last, s.clocks, |s.clocks|) else last
  }

  /** A run with a clock that never goes back. */
  ghost predicate TimedRun(b: BoxState, last: Clock, steps: seq<Step>)
    ensures TimedRun(b, last, steps) ==> ValidRun(b, steps)
    decreases |steps|
  {
    steps == [] || (
      && Enabled(b, steps[0])
      && (steps[0].Tick? ==> ClocksFrom(last, steps[0].clocks))
      && TimedRun(Apply(b, steps[0]), LastReading(last, steps[0]), steps[1..]))
  }

  lemma {:induction false} ClocksOrder(last: Clock, clocks: seq<Clock>, i: nat, j: nat)
    requires ClocksFrom(last, clocks) && i <= j <= |clocks|
    ensures NotAfter(PrevClock(last, clocks, i), PrevClock(last, clocks, j))
  {
    if i < j {
      ClocksOrder(last, clocks, i, j - 1);
      assert NotAfter(PrevClock(last, clocks, j - 1), clocks[j - 1]);
    }
  }

  /** The day marker always holds the second of the last reading. */
  lemma {:induction false} MarkerStep(b: BoxState, last: Clock, s: Step)
    requires Enabled(b, s) && b.reg.secToday == last.sec
    ensures Apply(b, s).reg.secToday == LastReading(last, s).sec
  {
    if s.VsSweep? {
      SweptMarker(b.reg, b.vs);
    }
  }

  lemma {:induction false} SweptMarker(r: Reg, vs: seq<VsDev>)
    ensures SweptReg(r, vs).secToday == r.secToday
    decreases |vs|
  {
    if vs != [] {
      SweptMarker(if vs[0].idle > MAX_IDLE then Offline(r, vs[0].id) else r, vs[1..]);
    }
  }

  /** On one and the same day no reading looks like a new day. */
  lemma {:induction false} NoRollover(b: BoxState, last: Clock, clocks: seq<Clock>, i: nat)
    requires ClocksFrom(last, clocks) && i < |clocks| && b.reg.secToday == last.sec
    requires last.day == clocks[i].day
    ensures !Rollover(PrevSec(b.reg.secToday, clocks, i), clocks[i])
  {
    ClocksOrder(last, clocks, 0, i);
    assert NotAfter(PrevClock(last, clocks, i), clocks[i]);
  }

  // ---------------------------------------------------------------- firing

  predicate FiresAt(b: BoxState, s: Step, id: u32, k: nat, i: nat)
    requires Enabled(b, s) && k < MAX_TIMERS
  {
    && s.Tick? && i < |b.reg.online| && b.reg.online[i].id == id
    && SlotFires(b.reg.online[i], k, b.reg.workMode, PrevSec(b.reg.secToday, s.clocks, i), s.clocks[i])
  }

  /** In this step the timer queues its action, at a reading of the given day. */
  ghost predicate FiresOn(b: BoxState, s: Step, id: u32, k: nat, day: nat)
    requires Enabled(b, s) && k < MAX_TIMERS
  {
    exists i :: 0 <= i < |b.reg.online| && FiresAt(b, s, id, k, i) && s.clocks[i].day == day
  }

  ghost function FireCount(b: BoxState, steps: seq<Step>, id: u32, k: nat, day: nat): nat
    requires ValidRun(b, steps) && k < MAX_TIMERS
    decreases |steps|
  {
    if steps == [] then 0
    else (if FiresOn(b, steps[0], id, k, day) then 1 else 0) + FireCount(Apply(b, steps[0]), steps[1..], id, k, day)
  }

  /** The step sets this timer anew. */
  predicate SetsTimer(s: Step, id: u32, k: nat) {
    s.SetRecord? && s.id == id && s.v.TimerRecord? && s.v.timer.id == k
  }

  ghost predicate NotSet(steps: seq<Step>, id: u32, k: nat) {
    forall i :: 0 <= i < |steps| ==> !SetsTimer(steps[i], id, k)
  }

  lemma {:induction false} NotSetTail(steps: seq<Step>, id: u32, k: nat)
    requires steps != [] && NotSet(steps, id, k)
    ensures !SetsTimer(steps[0], id, k) && NotSet(steps[1..], id, k)
  {
  }

  /** The timer cannot fire until it is re-armed or set. */
  predicate Spent(d: Dev, id: u32, k: nat)
    requires k < MAX_TIMERS
  {
    d.id == id ==> !d.timers[k].active || d.timers[k].expired
  }

  ghost predicate AllSpent(b: BoxState, id: u32, k: nat)
    requires k < MAX_TIMERS
  {
    All(b.reg, (d: Dev) => Spent(d, id, k))
  }

  lemma {:induction false} SpentStep(b: BoxState, s: Step, id: u32, k: nat)
    requires Enabled(b, s) && k < MAX_TIMERS && AllSpent(b, id, k) && !SetsTimer(s, id, k)
    requires s.Tick? ==> forall i :: 0 <= i < |s.clocks| && b.reg.online[i].id == id ==>
      !Rollover(PrevSec(b.reg.secToday, s.clocks, i), s.clocks[i])
    ensures AllSpent(Apply(b, s), id, k)
    ensures !FiresEver(b, s, id, k) && forall day :: !FiresOn(b, s, id, k, day)
  {
    var p := (d: Dev) => Spent(d, id, k);
    if Edits(s) {
      forall i | 0 <= i < |b.reg.online| ensures p(EditedAt(b, s, i)) {
        assert p(b.reg.online[i]);
      }
    }
    StepAll(b, s, p);
    forall i | s.Tick? && 0 <= i < |b.reg.online| ensures !FiresAt(b, s, id, k, i) {
      assert p(b.reg.online[i]);
    }
  }

  /** Once spent, a timer stays silent for the rest of the day, and past days do not return. */
  lemma {:induction false} QuietDay(b: BoxState, last: Clock, steps: seq<Step>, id: u32, k: nat, day: nat)
    requires TimedRun(b, last, steps) && k < MAX_TIMERS && b.reg.secToday == last.sec && NotSet(steps, id, k)
    requires last.day > day || (last.day == day && AllSpent(b, id, k))
    ensures FireCount(b, steps, id, k, day) == 0
    decreases |steps|
  {
    hide Apply;
    if steps != [] {
      NotSetTail(steps, id, k);
      QuietStep(b, last, steps[0], id, k, day);
      MarkerStep(b, last, steps[0]);
      QuietDay(Apply(b, steps[0]), LastReading(last, steps[0]), steps[1..], id, k, day);
    }
  }

  lemma {:induction false} Between(last: Clock, clocks: seq<Clock>, i: nat)
    requires ClocksFrom(last, clocks) && i < |clocks|
    ensures last.day <= clocks[i].day <= PrevClock(last, clocks, |clocks|).day
  {
    ClocksOrder(last, clocks, 0, i + 1);
    ClocksOrder(last, clocks, i + 1, |clocks|);
  }

  lemma {:induction false} QuietTick(b: BoxState, last: Clock, s: Step, id: u32, k: nat, day: nat)
    requires Enabled(b, s) && s.Tick? && ClocksFrom(last, s.clocks)
    requires k < MAX_TIMERS && b.reg.secToday == last.sec
    requires last.day > day || (last.day == day && AllSpent(b, id, k))
    ensures !FiresOn(b, s, id, k, day)
  {
    forall i | 0 <= i < |b.reg.online| && s.clocks[i].day == day ensures !FiresAt(b, s, id, k, i) {
      Between(last, s.clocks, i);
      NoRollover(b, last, s.clocks, i);
      assert ((d: Dev) => Spent(d, id, k))(b.reg.online[i]);
    }
  }

  lemma {:induction false} QuietStep(b: BoxState, last: Clock, s: Step, id: u32, k: nat, day: nat)
    requires Enabled(b, s) && (s.Tick? ==> ClocksFrom(last, s.clocks)) && !SetsTimer(s, id, k)
    requires k < MAX_TIMERS && b.reg.secToday == last.sec
    requires last.day > day || (last.day == day && AllSpent(b, id, k))
    ensures !FiresOn(b, s, id, k, day)
    ensures LastReading(last, s).day > day || (LastReading(last, s).day == day && AllSpent(Apply(b, s), id, k))
  {
    if s.Tick? {
      QuietTick(b, last, s, id, k, day);
      ClocksOrder(last, s.clocks, 0, |s.clocks|);
      if LastReading(last, s).day == day {
        forall i | 0 <= i < |s.clocks| ensures !Rollover(PrevSec(b.reg.secToday, s.clocks, i), s.clocks[i]) {
          Between(last, s.clocks, i);
          NoRollover(b, last, s.clocks, i);
        }
        SpentStep(b, s, id, k);
      }
    } else if last.day == day {
      SpentStep(b, s, id, k);
    }
  }

  /** A firing leaves the timer spent, and a one-shot timer inactive. */
  lemma {:induction false} SpentByFiring(b: BoxState, s: Step, id: u32, k: nat, i: nat)
    requires Inv(b) && Enabled(b, s) && k < MAX_TIMERS && FiresAt(b, s, id, k, i)
    ensures AllSpent(Apply(b, s), id, k)
    ensures OneShot(b.reg.online[i].timers[k].value) ==> AllInactive(Apply(b, s), id, k)
  {
    EditedIs(b, s);
    var r := Apply(b, s).reg;
    forall j | 0 <= j < |r.online| && r.online[j].id == id ensures j == i {
      assert r.online[j].id == b.reg.online[j].id;
    }
    forall j | 0 <= j < |r.offline| ensures r.offline[j].id != id {
      assert Apart(b.reg.online[i], b.reg.offline[j]);
    }
  }

  /** Every repeating or one-shot timer on every device fires at most once a day, unless it is
      set again. */
  lemma {:induction false} AtMostOncePerDay(
      b: BoxState, last: Clock, steps: seq<Step>, id: u32, k: nat, day: nat)
    requires Inv(b) && TimedRun(b, last, steps) && Ceiling(b.reg.nextId) + Allocations(b, steps) <= U32
    requires k < MAX_TIMERS && b.reg.secToday == last.sec && NotSet(steps, id, k)
    ensures FireCount(b, steps, id, k, day) <= 1
    decreases |steps|
  {
    hide Apply;
    if steps != [] {
      var s, b', last' := steps[0], Apply(b, steps[0]), LastReading(last, steps[0]);
      NotSetTail(steps, id, k);
      MarkerStep(b, last, s);
      StepInv(b, s);
      StepNextId(b, s);
      if FiresOn(b, s, id, k, day) {
        var i :| 0 <= i < |b.reg.online| && FiresAt(b, s, id, k, i) && s.clocks[i].day == day;
        SpentByFiring(b, s, id, k, i);
        Between(last, s.clocks, i);
        QuietDay(b', last', steps[1..], id, k, day);
      } else {
        AtMostOncePerDay(b', last', steps[1..], id, k, day);
      }
    }
  }

  // ---------------------------------------------------------------- one-shot timers

  predicate Inactive(d: Dev, id: u32, k: nat)
    requires k < MAX_TIMERS
  {
    d.id == id ==> !d.timers[k].active
  }

  ghost predicate AllInactive(b: BoxState, id: u32, k: nat)
    requires k < MAX_TIMERS
  {
    All(b.reg, (d: Dev) => Inactive(d, id, k))
  }

  /** If the timer is active, it is a one-shot. */
  predicate OnceOnly(d: Dev, id: u32, k: nat)
    requires k < MAX_TIMERS
  {
    d.id == id && d.timers[k].active ==> OneShot(d.timers[k].value)
  }

  ghost predicate AllOnceOnly(b: BoxState, id: u32, k: nat)
    requires k < MAX_TIMERS
  {
    All(b.reg, (d: Dev) => OnceOnly(d, id, k))
  }

  /** The timer queues its action in this step, on whatever day. */
  ghost predicate FiresEver(b: BoxState, s: Step, id: u32, k: nat)
    requires Enabled(b, s) && k < MAX_TIMERS
  {
    exists i :: 0 <= i < |b.reg.online| && FiresAt(b, s, id, k, i)
  }

  ghost function FireTotal(b: BoxState, steps: seq<Step>, id: u32, k: nat): nat
    requires ValidRun(b, steps) && k < MAX_TIMERS
    decreases |steps|
  {
    if steps == [] then 0
    else (if FiresEver(b, steps[0], id, k) then 1 else 0) + FireTotal(Apply(b, steps[0]), steps[1..], id, k)
  }

  lemma {:induction false} InactiveStep(b: BoxState, s: Step, id: u32, k: nat)
    requires Enabled(b, s) && k < MAX_TIMERS && AllInactive(b, id, k) && !SetsTimer(s, id, k)
    ensures AllInactive(Apply(b, s), id, k) && !FiresEver(b, s, id, k)
  {
    var p := (d: Dev) => Inactive(d, id, k);
    if Edits(s) {
      forall i | 0 <= i < |b.reg.online| ensures p(EditedAt(b, s, i)) {
        assert p(b.reg.online[i]);
      }
    }
    StepAll(b, s, p);
    forall i | s.Tick? && 0 <= i < |b.reg.online| ensures !FiresAt(b, s, id, k, i) {
      assert p(b.reg.online[i]);
    }
  }

  /** A deleted, cleared or never set timer stays silent and inactive. */
  lemma {:induction false} InactiveRun(b: BoxState, steps: seq<Step>, id: u32, k: nat)
    requires ValidRun(b, steps) && k < MAX_TIMERS && AllInactive(b, id, k) && NotSet(steps, id, k)
    ensures FireTotal(b, steps, id, k) == 0 && AllInactive(Run(b, steps), id, k)
    decreases |steps|
  {
    hide Apply;
    if steps != [] {
      NotSetTail(steps, id, k);
      InactiveStep(b, steps[0], id, k);
      InactiveRun(Apply(b, steps[0]), steps[1..], id, k);
    }
  }

  lemma {:induction false} OnceOnlyStep(b: BoxState, s: Step, id: u32, k: nat)
    requires Enabled(b, s) && k < MAX_TIMERS && AllOnceOnly(b, id, k) && !SetsTimer(s, id, k)
    ensures AllOnceOnly(Apply(b, s), id, k)
  {
    var p := (d: Dev) => OnceOnly(d, id, k);
    if Edits(s) {
      forall i | 0 <= i < |b.reg.online| ensures p(EditedAt(b, s, i)) {
        assert p(b.reg.online[i]);
      }
    }
    StepAll(b, s, p);
  }

  /** A one-shot timer fires at most once ever, and is inactive afterwards, unless set again. */
  lemma {:induction false} OneShotOnce(b: BoxState, steps: seq<Step>, id: u32, k: nat)
    requires Inv(b) && ValidRun(b, steps) && Ceiling(b.reg.nextId) + Allocations(b, steps) <= U32
    requires k < MAX_TIMERS && AllOnceOnly(b, id, k) && NotSet(steps, id, k)
    ensures FireTotal(b, steps, id, k) <= 1
    ensures FireTotal(b, steps, id, k) == 1 ==> AllInactive(Run(b, steps), id, k)
    decreases |steps|
  {
    hide Apply;
    if steps != [] {
      var s, b' := steps[0], Apply(b, steps[0]);
      NotSetTail(steps, id, k);
      StepInv(b, s);
      StepNextId(b, s);
      if FiresEver(b, s, id, k) {
        var i :| 0 <= i < |b.reg.online| && FiresAt(b, s, id, k, i);
        assert ((d: Dev) => OnceOnly(d, id, k))(b.reg.online[i]);
        SpentByFiring(b, s, id, k, i);
        InactiveRun(b', steps[1..], id, k);
      } else {
        OnceOnlyStep(b, s, id, k);
        OneShotOnce(b', steps[1..], id, k);
      }
    }
  }

  // ---------------------------------------------------------------- one reading per sweep

  /** All devices of the sweep see the same reading. */
  ghost predicate Uniform(s: Step, c: Clock) {
    s.Tick? && forall i :: 0 <= i < |s.clocks| ==> s.clocks[i] == c
  }

  /** With one reading per sweep, only the head of the queue sees the new day: the marker is
      global and the first callback moves it. */
  lemma {:induction false} OnlyHeadRearms(b: BoxState, s: Step, c: Clock, i: nat)
    requires Enabled(b, s) && Uniform(s, c) && i < |b.reg.online|
    ensures Rollover(PrevSec(b.reg.secToday, s.clocks, i), c) <==> i == 0 && Rollover(b.reg.secToday, c)
  {
  }

  /** The device is never the head when a sweep runs, and every sweep takes one reading. */
  ghost predicate NeverHead(b: BoxState, steps: seq<Step>, id: u32)
    requires ValidRun(b, steps)
    decreases |steps|
  {
    steps == [] || (
      && (steps[0].Tick? ==> (exists c :: Uniform(steps[0], c)) && (b.reg.online != [] ==> b.reg.online[0].id != id))
      && NeverHead(Apply(b, steps[0]), steps[1..], id))
  }

  /** A step that is not a sweep with the device first in the queue re-arms no timer of it. */
  lemma {:induction false} NeverHeadStep(b: BoxState, steps: seq<Step>, id: u32)
    requires ValidRun(b, steps) && steps != [] && NeverHead(b, steps, id)
    ensures steps[0].Tick? ==> forall i :: 0 <= i < |steps[0].clocks| && b.reg.online[i].id == id ==>
      !Rollover(PrevSec(b.reg.secToday, steps[0].clocks, i), steps[0].clocks[i])
  {
    var s := steps[0];
    if s.Tick? {
      var c :| Uniform(s, c);
      forall i | 0 <= i < |s.clocks| && b.reg.online[i].id == id
        ensures !Rollover(PrevSec(b.reg.secToday, s.clocks, i), s.clocks[i])
      {
        OnlyHeadRearms(b, s, c, i);
      }
    }
  }

  /** So a timer that has fired on a device behind the head never fires again, on any day,
      unless it is set again. */
  lemma {:induction false} BehindHeadSilent(b: BoxState, steps: seq<Step>, id: u32, k: nat)
    requires ValidRun(b, steps) && NeverHead(b, steps, id)
    requires k < MAX_TIMERS && AllSpent(b, id, k) && NotSet(steps, id, k)
    ensures FireTotal(b, steps, id, k) == 0 && forall day :: FireCount(b, steps, id, k, day) == 0
    decreases |steps|
  {
    hide Apply;
    if steps != [] {
      var s := steps[0];
      NotSetTail(steps, id, k);
      NeverHeadStep(b, steps, id);
      SpentStep(b, s, id, k);
      BehindHeadSilent(Apply(b, s), steps[1..], id, k);
    }
  }

  /** Behind the head a timer, spent or not, fires at most once in a whole run, however many days
      it spans. */
  lemma {:induction false} BehindHeadOnce(b: BoxState, steps: seq<Step>, id: u32, k: nat)
    requires Inv(b) && ValidRun(b, steps) && Ceiling(b.reg.nextId) + Allocations(b, steps) <= U32
    requires NeverHead(b, steps, id) && k < MAX_TIMERS && NotSet(steps, id, k)
    ensures FireTotal(b, steps, id, k) <= 1
    decreases |steps|
  {
    hide Apply;
    if steps != [] {
      var s, b' := steps[0], Apply(b, steps[0]);
      NotSetTail(steps, id, k);
      StepInv(b, s);
      StepNextId(b, s);
      if FiresEver(b, s, id, k) {
        var i :| 0 <= i < |b.reg.online| && FiresAt(b, s, id, k, i);
        SpentByFiring(b, s, id, k, i);
        BehindHeadSilent(b', steps[1..], id, k);
      } else {
        BehindHeadOnce(b', steps[1..], id, k);
      }
    }
  }

  // ---------------------------------------------------------------- which matching days a timer fires on

  const MAX_GAP := 6

  predicate IsHead(b: BoxState, id: u32) {
    b.reg.online != [] && b.reg.online[0].id == id
  }

  predicate IsOnline(b: BoxState, id: u32) {
    IndexOf(b.reg.online, id) < |b.reg.online|
  }

  predicate ChangesTimer(s: Step, id: u32, k: nat) {
    SetsTimer(s, id, k) || (s.DeleteRecord? && s.id == id && s.kind == TimerSlot && s.k == k)
  }

  /** The rest of a day: sweeps with one reading each, at most six seconds apart, the device stays
      online, nobody changes the timer, and the day is watched to its end. */
  ghost predicate SteadyDay(b: BoxState, last: Clock, steps: seq<Step>, id: u32, k: nat)
    requires ValidRun(b, steps)
    decreases |steps|
  {
    IsOnline(b, id) && (
      if steps == [] then last.sec + MAX_GAP >= DAY_SECONDS
      else
        && !ChangesTimer(steps[0], id, k)
        && (steps[0].Tick? ==> SteadyTick(steps[0], last))
        && SteadyDay(Apply(b, steps[0]), LastReading(last, steps[0]), steps[1..], id, k))
  }

  ghost predicate SteadyTick(s: Step, last: Clock) {
    && s.Tick? && s.clocks != [] && Uniform(s, s.clocks[0])
    && s.clocks[0].day == last.day && last.sec <= s.clocks[0].sec <= last.sec + MAX_GAP
  }

  /** At every sweep of the run the mask carries the work mode then in force. */
  ghost predicate MaskedIn(b: BoxState, steps: seq<Step>, t: Timer)
    requires ValidRun(b, steps)
    decreases |steps|
  {
    steps == [] || (
      && (steps[0].Tick? ==> Bit(t.workMode, b.reg.workMode))
      && MaskedIn(Apply(b, steps[0]), steps[1..], t))
  }

  /** The timer fires at the first sweep at or after its second, within its window, and at no
      other sweep of the run. */
  ghost predicate FiresFirst(b: BoxState, steps: seq<Step>, id: u32, k: nat, second: nat, day: nat)
    requires ValidRun(b, steps) && k < MAX_TIMERS
    decreases |steps|
  {
    steps != [] && (
      var s, b' := steps[0], Apply(b, steps[0]);
      if s.Tick? && s.clocks != [] && s.clocks[0].sec >= second then
        && FiresOn(b, s, id, k, day) && s.clocks[0].sec <= second + FIRE_WINDOW
        && FireCount(b', steps[1..], id, k, day) == 0
      else !FiresOn(b, s, id, k, day) && FiresFirst(b', steps[1..], id, k, second, day))
  }

  lemma {:induction false} FiresFirstCount(b: BoxState, steps: seq<Step>, id: u32, k: nat, second: nat, day: nat)
    requires ValidRun(b, steps) && k < MAX_TIMERS && FiresFirst(b, steps, id, k, second, day)
    ensures FireCount(b, steps, id, k, day) == 1
    decreases |steps|
  {
    var s := steps[0];
    if !(s.Tick? && s.clocks != [] && s.clocks[0].sec >= second) {
      FiresFirstCount(Apply(b, s), steps[1..], id, k, second, day);
    }
  }

  lemma {:induction false} SteadyTimed(b: BoxState, last: Clock, steps: seq<Step>, id: u32, k: nat)
    requires ValidRun(b, steps) && SteadyDay(b, last, steps, id, k)
    ensures TimedRun(b, last, steps) && NotSet(steps, id, k)
    decreases |steps|
  {
    hide Apply;
    if steps != [] {
      SteadyTimed(Apply(b, steps[0]), LastReading(last, steps[0]), steps[1..], id, k);
      assert steps == [steps[0]] + steps[1..];
    }
  }

  /** Wherever the device is, its slot `k` is this. */
  predicate Has(d: Dev, id: u32, k: nat, slot: Slot<Timer>)
    requires k < MAX_TIMERS
  {
    d.id == id ==> d.timers[k] == slot
  }

  ghost predicate AllHave(b: BoxState, id: u32, k: nat, slot: Slot<Timer>)
    requires k < MAX_TIMERS
  {
    All(b.reg, (d: Dev) => Has(d, id, k, slot))
  }

  lemma {:induction false} HasStep(b: BoxState, s: Step, id: u32, k: nat, slot: Slot<Timer>)
    requires Enabled(b, s) && k < MAX_TIMERS && AllHave(b, id, k, slot) && 0 < id < Ceiling(b.reg.nextId)
    requires !s.Tick? && !ChangesTimer(s, id, k)
    ensures AllHave(Apply(b, s), id, k, slot)
  {
    var p := (d: Dev) => Has(d, id, k, slot);
    if Edits(s) {
      forall i | 0 <= i < |b.reg.online| ensures p(EditedAt(b, s, i)) {
        assert p(b.reg.online[i]);
      }
    }
    StepAll(b, s, p);
  }

  /** No other device, online or offline, has the id of the one at `i`. */
  lemma {:induction false} OnlyOne(b: BoxState, i: nat)
    requires Inv(b) && i < |b.reg.online|
    ensures forall j :: 0 <= j < |b.reg.online| && j != i ==> b.reg.online[j].id != b.reg.online[i].id
    ensures forall j :: 0 <= j < |b.reg.offline| ==> b.reg.offline[j].id != b.reg.online[i].id
  {
    forall j | 0 <= j < |b.reg.online| && j != i ensures b.reg.online[j].id != b.reg.online[i].id {
      assert j < i ==> Apart(b.reg.online[j], b.reg.online[i]);
      assert i < j ==> Apart(b.reg.online[i], b.reg.online[j]);
    }
    forall j | 0 <= j < |b.reg.offline| ensures b.reg.offline[j].id != b.reg.online[i].id {
      assert Apart(b.reg.online[i], b.reg.offline[j]);
    }
  }

  /** The slot of device `i` as the firing loop of a sweep sees it. */
  function ArmedAt(b: BoxState, s: Step, i: nat, slot: Slot<Timer>): Slot<Timer>
    requires Enabled(b, s) && s.Tick? && i < |b.reg.online|
  {
    Armed(slot, PrevSec(b.reg.secToday, s.clocks, i), s.clocks[i])
  }

  /** The device's own mask carries every mode, so its slots decide. */
  lemma {:induction false} SlotDecides(b: BoxState, s: Step, id: u32, k: nat, i: nat)
    requires Inv(b) && Enabled(b, s) && s.Tick? && k < MAX_TIMERS
    requires i < |b.reg.online| && b.reg.online[i].id == id
    ensures var armed := ArmedAt(b, s, i, b.reg.online[i].timers[k]);
      && (FiresAt(b, s, id, k, i) <==> Fires(armed, b.reg.workMode, s.clocks[i]))
      && EditedAt(b, s, i).timers[k]
           == (if Fires(armed, b.reg.workMode, s.clocks[i]) then AfterFiring(armed) else armed)
  {
    assert Known(b.reg.online[i], b.reg.nextId);
    AllModesBit(b.reg.workMode);
  }

  lemma {:induction false} FiresOnlyAt(b: BoxState, s: Step, id: u32, k: nat, i: nat, day: nat)
    requires Inv(b) && Enabled(b, s) && s.Tick? && k < MAX_TIMERS
    requires i < |b.reg.online| && b.reg.online[i].id == id
    ensures FiresOn(b, s, id, k, day) <==> FiresAt(b, s, id, k, i) && s.clocks[i].day == day
  {
    OnlyOne(b, i);
    hide SlotFires, Inv;
  }

  lemma {:induction false} HasAfterTick(b: BoxState, s: Step, id: u32, k: nat, i: nat)
    requires Inv(b) && Enabled(b, s) && s.Tick? && k < MAX_TIMERS
    requires i < |b.reg.online| && b.reg.online[i].id == id
    ensures AllHave(Apply(b, s), id, k, EditedAt(b, s, i).timers[k])
  {
    EditedIs(b, s);
    OnlyOne(b, i);
    hide Ticked, Inv, Apply;
    var r := Apply(b, s).reg;
    forall j | 0 <= j < |r.online| && j != i ensures r.online[j].id != id {
      EditedId(b, s, j);
    }
  }

  /** What a sweep makes of the slot of device `i`. */
  lemma {:induction false} DeviceTick(b: BoxState, s: Step, id: u32, k: nat, slot: Slot<Timer>, i: nat)
    requires Inv(b) && Enabled(b, s) && s.Tick? && k < MAX_TIMERS
    requires AllHave(b, id, k, slot) && i < |b.reg.online| && b.reg.online[i].id == id
    ensures var armed := ArmedAt(b, s, i, slot); var fires := Fires(armed, b.reg.workMode, s.clocks[i]);
      && (forall day :: FiresOn(b, s, id, k, day) <==> fires && s.clocks[i].day == day)
      && AllHave(Apply(b, s), id, k, if fires then AfterFiring(armed) else armed)
  {
    assert b.reg.online[i].timers[k] == slot by {
      assert ((d: Dev) => Has(d, id, k, slot))(b.reg.online[i]);
    }
    hide Fires, AfterFiring, ArmedAt, EditedAt, Inv, FiresOn, FiresAt, AllHave, Apply;
    SlotDecides(b, s, id, k, i);
    HasAfterTick(b, s, id, k, i);
    forall day ensures FiresOn(b, s, id, k, day) <==> FiresAt(b, s, id, k, i) && s.clocks[i].day == day {
      FiresOnlyAt(b, s, id, k, i, day);
    }
  }

  lemma {:induction false} EditedId(b: BoxState, s: Step, j: nat)
    requires Enabled(b, s) && Edits(s) && j < |b.reg.online|
    ensures EditedAt(b, s, j).id == b.reg.online[j].id
  {
  }

  lemma {:induction false} HasImpliesSpent(b: BoxState, id: u32, k: nat, slot: Slot<Timer>)
    requires k < MAX_TIMERS && AllHave(b, id, k, slot) && (!slot.active || slot.expired)
    ensures AllSpent(b, id, k)
  {
    forall d: Dev | Has(d, id, k, slot) ensures Spent(d, id, k) {
    }
  }

  /** A sweep later the same day re-arms nothing. */
  lemma {:induction false} SameDayArmed(b: BoxState, last: Clock, s: Step, i: nat, slot: Slot<Timer>)
    requires Enabled(b, s) && SteadyTick(s, last) && b.reg.secToday == last.sec && i < |b.reg.online|
    ensures ArmedAt(b, s, i, slot) == slot
  {
  }

  /** An armed timer in a sweep on a matching day, in a mode its mask carries. */
  lemma {:induction false} FiresInWindow(t: Timer, mode: nat, c: Clock)
    requires Bit(t.workMode, mode) && MatchesDay(t, c) && c.sec <= TimerSecond(t) + FIRE_WINDOW
    ensures Fires(Slot(t, true, false), mode, c) <==> TimerSecond(t) <= c.sec
  {
  }

  lemma {:induction false} SameWeekDay(t: Timer, c: Clock, d: Clock)
    requires c.day == d.day
    ensures MatchesDay(t, c) == MatchesDay(t, d)
  {
  }

  lemma {:induction false} FiredIsSpent(slot: Slot<Timer>)
    ensures !AfterFiring(slot).active || AfterFiring(slot).expired
  {
  }

  /** What a sweep later the same day makes of an armed timer. */
  lemma {:induction false} ArmedTick(b: BoxState, last: Clock, s: Step, id: u32, k: nat, t: Timer)
    requires Inv(b) && Enabled(b, s) && SteadyTick(s, last) && k < MAX_TIMERS && b.reg.secToday == last.sec
    requires AllHave(b, id, k, Slot(t, true, false)) && IsOnline(b, id)
    requires Bit(t.workMode, b.reg.workMode) && MatchesDay(t, last) && last.sec < TimerSecond(t)
    ensures s.clocks[0].sec >= TimerSecond(t) ==>
      FiresOn(b, s, id, k, last.day) && s.clocks[0].sec <= TimerSecond(t) + FIRE_WINDOW && AllSpent(Apply(b, s), id, k)
    ensures s.clocks[0].sec < TimerSecond(t) ==>
      !FiresOn(b, s, id, k, last.day) && AllHave(Apply(b, s), id, k, Slot(t, true, false))
  {
    hide Apply, Inv, Bit, All, AllHave, AllSpent, FiresOn, Fires, MatchesDay, TimerSecond, AfterFiring, ArmedAt;
    var slot, i, c := Slot(t, true, false), IndexOf(b.reg.online, id), s.clocks[0];
    assert s.clocks[i] == c && c.day == last.day && last.sec <= c.sec <= last.sec + MAX_GAP;
    DeviceTick(b, s, id, k, slot, i);
    SameDayArmed(b, last, s, i, slot);
    SameWeekDay(t, last, c);
    FiresInWindow(t, b.reg.workMode, c);
    if c.sec >= TimerSecond(t) {
      FiredIsSpent(slot);
      HasImpliesSpent(Apply(b, s), id, k, AfterFiring(slot));
    }
  }

  lemma {:induction false} ArmedRest(b: BoxState, last: Clock, steps: seq<Step>, id: u32, k: nat, t: Timer)
    requires Inv(b) && ValidRun(b, steps) && Ceiling(b.reg.nextId) + Allocations(b, steps) <= U32
    requires k < MAX_TIMERS && SteadyDay(b, last, steps, id, k) && b.reg.secToday == last.sec
    requires AllHave(b, id, k, Slot(t, true, false)) && MaskedIn(b, steps, t) && MatchesDay(t, last)
    requires last.sec < TimerSecond(t) && TimerSecond(t) + MAX_GAP <= DAY_SECONDS
    ensures FiresFirst(b, steps, id, k, TimerSecond(t), last.day)
    decreases |steps|
  {
    hide Apply, Inv, AllHave, AllSpent, FiresOn, Bit, MatchesDay, TimerSecond, IsOnline;
    if steps != [] {
      var s, b', last' := steps[0], Apply(b, steps[0]), LastReading(last, steps[0]);
      StepInv(b, s);
      StepNextId(b, s);
      MarkerStep(b, last, s);
      if s.Tick? {
        ArmedTick(b, last, s, id, k, t);
        SameWeekDay(t, last, last');
        if s.clocks[0].sec >= TimerSecond(t) {
          SteadyTimed(b', last', steps[1..], id, k);
          QuietDay(b', last', steps[1..], id, k, last.day);
        } else {
          ArmedRest(b', last', steps[1..], id, k, t);
        }
      } else {
        OnlineKnown(b, id);
        HasStep(b, s, id, k, Slot(t, true, false));
        NoTickNoFire(b, s, id, k, last.day);
        ArmedRest(b', last', steps[1..], id, k, t);
      }
    }
  }

  /** An armed timer fires at the first sweep that reaches its hour, minute and second, wherever in
      the queue its device is. */
  lemma {:induction false} ArmedFires(
      b: BoxState, last: Clock, steps: seq<Step>, id: u32, k: nat, t: Timer, due: nat)
    requires Inv(b) && ValidRun(b, steps) && Ceiling(b.reg.nextId) + Allocations(b, steps) <= U32
    requires k < MAX_TIMERS && SteadyDay(b, last, steps, id, k) && b.reg.secToday == last.sec
    requires AllHave(b, id, k, Slot(t, true, false)) && MaskedIn(b, steps, t) && MatchesDay(t, last)
    requires due == 3600 * t.hour + 60 * t.min + t.sec && last.sec < due <= DAY_SECONDS - MAX_GAP
    ensures FiresFirst(b, steps, id, k, due, last.day)
  {
    assert due == TimerSecond(t);
    hide *;
    ArmedRest(b, last, steps, id, k, t);
  }

  lemma {:induction false} OnlineKnown(b: BoxState, id: u32)
    requires Inv(b) && IsOnline(b, id)
    ensures 0 < id < Ceiling(b.reg.nextId)
  {
    assert Known(b.reg.online[IndexOf(b.reg.online, id)], b.reg.nextId);
  }

  lemma {:induction false} NoTickNoFire(b: BoxState, s: Step, id: u32, k: nat, day: nat)
    requires Enabled(b, s) && k < MAX_TIMERS && !s.Tick?
    ensures !FiresOn(b, s, id, k, day)
  {
  }

  /** `s` is the first sweep of a day that begins with a rollover: one reading, at most six seconds
      after the last reading of the day before. */
  ghost predicate FirstSweep(b: BoxState, yesterday: Clock, s: Step) {
    && b.reg.secToday == yesterday.sec && ValidClock(yesterday) && Enabled(b, s)
    && s.Tick? && s.clocks != [] && Uniform(s, s.clocks[0])
    && s.clocks[0].day == yesterday.day + 1 && s.clocks[0].sec + DAY_SECONDS <= yesterday.sec + MAX_GAP
  }

  /** In that sweep the timer is armed if its device is the head or it was not expired. */
  lemma {:induction false} FirstArmed(b: BoxState, yesterday: Clock, s: Step, i: nat, slot: Slot<Timer>)
    requires FirstSweep(b, yesterday, s) && i < |b.reg.online|
    requires slot.active && MatchesDay(slot.value, s.clocks[0])
    ensures ArmedAt(b, s, i, slot) == slot.(expired := i != 0 && slot.expired)
  {
    hide MatchesDay;
    assert Rollover(yesterday.sec, s.clocks[0]);
  }

  /** A day on which the timer starts armed. */
  lemma {:induction false} ArmedDay(
      b: BoxState, yesterday: Clock, s: Step, steps: seq<Step>, id: u32, k: nat, slot: Slot<Timer>, due: nat, i: nat)
    requires Inv(b) && FirstSweep(b, yesterday, s) && ValidRun(Apply(b, s), steps) && k < MAX_TIMERS
    requires Ceiling(b.reg.nextId) + Allocations(Apply(b, s), steps) <= U32
    requires SteadyDay(Apply(b, s), s.clocks[0], steps, id, k) && MaskedIn(Apply(b, s), steps, slot.value)
    requires Bit(slot.value.workMode, b.reg.workMode)
    requires AllHave(b, id, k, slot) && slot.active && MatchesDay(slot.value, s.clocks[0])
    requires due == 3600 * slot.value.hour + 60 * slot.value.min + slot.value.sec && due <= DAY_SECONDS - MAX_GAP
    requires i < |b.reg.online| && b.reg.online[i].id == id && (i == 0 || !slot.expired)
    ensures ValidRun(b, [s] + steps) && FiresFirst(b, [s] + steps, id, k, due, s.clocks[0].day)
  {
    assert due == TimerSecond(slot.value);
    hide Apply, Inv, AllHave, AllSpent, FiresOn, Fires, Bit, MatchesDay, TimerSecond, AfterFiring, ArmedAt, SteadyDay,
         MaskedIn;
    var c, b', t := s.clocks[0], Apply(b, s), slot.value;
    assert ([s] + steps)[0] == s && ([s] + steps)[1..] == steps;
    StepInv(b, s);
    StepNextId(b, s);
    MarkerStep(b, yesterday, s);
    assert s.clocks[i] == c && b'.reg.secToday == c.sec && c.sec <= FIRE_WINDOW;
    DeviceTick(b, s, id, k, slot, i);
    FirstArmed(b, yesterday, s, i, slot);
    assert ArmedAt(b, s, i, slot) == Slot(t, true, false);
    FiresInWindow(t, b.reg.workMode, c);
    if TimerSecond(t) <= c.sec {
      FiredIsSpent(Slot(t, true, false));
      HasImpliesSpent(b', id, k, AfterFiring(Slot(t, true, false)));
      SteadyTimed(b', c, steps, id, k);
      QuietDay(b', c, steps, id, k, c.day);
    } else {
      ArmedFires(b', c, steps, id, k, t, due);
    }
  }

  /** A day that the timer spends expired, on a device behind the head. */
  lemma {:induction false} SpentDay(
      b: BoxState, yesterday: Clock, s: Step, steps: seq<Step>, id: u32, k: nat, slot: Slot<Timer>, i: nat)
    requires Inv(b) && FirstSweep(b, yesterday, s) && ValidRun(Apply(b, s), steps) && k < MAX_TIMERS
    requires SteadyDay(Apply(b, s), s.clocks[0], steps, id, k)
    requires AllHave(b, id, k, slot) && slot.active && slot.expired && MatchesDay(slot.value, s.clocks[0])
    requires 0 < i < |b.reg.online| && b.reg.online[i].id == id
    ensures ValidRun(b, [s] + steps) && FireCount(b, [s] + steps, id, k, s.clocks[0].day) == 0
  {
    hide Apply, Inv, AllHave, AllSpent, FiresOn, Bit, MatchesDay, AfterFiring, ArmedAt, SteadyDay;
    var c, b' := s.clocks[0], Apply(b, s);
    assert ([s] + steps)[0] == s && ([s] + steps)[1..] == steps;
    MarkerStep(b, yesterday, s);
    assert b'.reg.secToday == c.sec;
    DeviceTick(b, s, id, k, slot, i);
    FirstArmed(b, yesterday, s, i, slot);
    assert ArmedAt(b, s, i, slot) == slot;
    HasImpliesSpent(b', id, k, slot);
    SteadyTimed(b', c, steps, id, k);
    QuietDay(b', c, steps, id, k, c.day);
  }

  /** Exactly when a timer fires on a matching day. On every day that begins with a rollover, with
      sweeps at most six seconds apart and the mask enabled at each, an active timer due at second
      86394 or earlier on a device that stays online fires if and only if its device is the head at
      the first sweep or the timer was not expired; and if so exactly once, at the first sweep that
      reaches its second. `yesterday` is the last reading before midnight, `s` the first sweep after
      it, `steps` the rest of the day. */
  lemma {:induction false} FiresOnDayIff(
      b: BoxState, yesterday: Clock, s: Step, steps: seq<Step>, id: u32, k: nat, slot: Slot<Timer>, due: nat)
    requires Inv(b) && FirstSweep(b, yesterday, s) && ValidRun(Apply(b, s), steps) && k < MAX_TIMERS
    requires Ceiling(b.reg.nextId) + Allocations(Apply(b, s), steps) <= U32
    requires IsOnline(b, id) && SteadyDay(Apply(b, s), s.clocks[0], steps, id, k)
    requires Bit(slot.value.workMode, b.reg.workMode) && MaskedIn(Apply(b, s), steps, slot.value)
    requires AllHave(b, id, k, slot) && slot.active && MatchesDay(slot.value, s.clocks[0])
    requires due == 3600 * slot.value.hour + 60 * slot.value.min + slot.value.sec && due <= DAY_SECONDS - MAX_GAP
    ensures ValidRun(b, [s] + steps)
    ensures FireCount(b, [s] + steps, id, k, s.clocks[0].day) == 1 <==> IsHead(b, id) || !slot.expired
    ensures IsHead(b, id) || !slot.expired ==>
      FiresFirst(b, [s] + steps, id, k, due, s.clocks[0].day)
    ensures !(IsHead(b, id) || !slot.expired) ==> FireCount(b, [s] + steps, id, k, s.clocks[0].day) == 0
  {
    hide Apply, Inv, AllHave, Bit, MatchesDay, SteadyDay, MaskedIn;
    var i := if IsHead(b, id) then 0 else IndexOf(b.reg.online, id);
    if i == 0 || !slot.expired {
      ArmedDay(b, yesterday, s, steps, id, k, slot, due, i);
      FiresFirstCount(b, [s] + steps, id, k, due, s.clocks[0].day);
    } else {
      SpentDay(b, yesterday, s, steps, id, k, slot, i);
    }
  }

  /** So a timer of the head fires exactly once on every matching day that begins with a rollover,
      whatever happened to it before. */
  lemma {:induction false} FiresEveryMatchingDay(
      b: BoxState, yesterday: Clock, s: Step, steps: seq<Step>, id: u32, k: nat, slot: Slot<Timer>, due: nat)
    requires Inv(b) && FirstSweep(b, yesterday, s) && ValidRun(Apply(b, s), steps) && k < MAX_TIMERS
    requires Ceiling(b.reg.nextId) + Allocations(Apply(b, s), steps) <= U32
    requires IsHead(b, id) && SteadyDay(Apply(b, s), s.clocks[0], steps, id, k)
    requires Bit(slot.value.workMode, b.reg.workMode) && MaskedIn(Apply(b, s), steps, slot.value)
    requires AllHave(b, id, k, slot) && slot.active && MatchesDay(slot.value, s.clocks[0])
    requires due == 3600 * slot.value.hour + 60 * slot.value.min + slot.value.sec && due <= DAY_SECONDS - MAX_GAP
    ensures ValidRun(b, [s] + steps)
    ensures FiresFirst(b, [s] + steps, id, k, due, s.clocks[0].day)
    ensures FireCount(b, [s] + steps, id, k, s.clocks[0].day) == 1
  {
    hide Apply, Inv, AllHave, Bit, MatchesDay, SteadyDay, MaskedIn, FirstSweep;
    FiresOnDayIff(b, yesterday, s, steps, id, k, slot, due);
  }
}
