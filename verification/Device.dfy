/** The records of `core_daemon/device.h` and what single records do: slots, timers, linkages. */
module Device {
  import opened Arithmetic

  type u8 = x: int | 0 <= x < 0x100
  type u16 = x: int | 0 <= x < 0x1_0000
  type u32 = x: int | 0 <= x < 0x1_0000_0000

  const U32: int := 0x1_0000_0000

  datatype Error = Ok | InvalidMsg | NotSupported | BadParam | EntryNotFound | ActFailed | Others

  const MAX_TIMERS := 32
  const MAX_DELAYS := 8
  const MAX_LINKS := 8
  const WORK_MODE_ALL := 0xFF
  const WORK_MODES := 3

  function Pow2(k: nat): (p: nat)
    ensures p > 0
  {
    if k == 0 then 1 else 2 * Pow2(k - 1)
  }

  /** `CHECK_BIT`: the binary digit `k` of a number, the lowest being 0. */
  predicate Bit(x: nat, k: nat) {
    if k == 0 then x % 2 == 1 else Bit(x / 2, k - 1)
  }

  lemma {:induction false} Twice(q: nat, p: nat)
    ensures q * (2 * p) == 2 * (q * p)
  {
  }

  lemma {:induction false} HalfFirst(x: nat, p: nat)
    requires p > 0
    ensures x / (2 * p) == x / 2 / p
  {
    var h := x / 2;
    var q, r := h / p, h % p;
    assert h == q * p + r;
    Twice(q, p);
    DivModUnique(x, q, 2 * r + x % 2, 2 * p);
  }

  /** The digit that stands for 2^k. */
  lemma {:induction false} BitIsDigit(x: nat, k: nat)
    ensures Bit(x, k) <==> x / Pow2(k) % 2 == 1
  {
    if k > 0 {
      BitIsDigit(x / 2, k - 1);
      HalfFirst(x, Pow2(k - 1));
      assert Pow2(k) == 2 * Pow2(k - 1);
    }
  }

  datatype Timer = Timer(
    id: u16, workMode: u8, flag: u8, hour: u8, min: u8, sec: u8, wday: u8,
    actId: u16, actParam1: u16, actParam2: u32)

  datatype Delay = Delay(
    id: u16, workMode: u8, flag: u8, evtId: u16, evtParam1: u16, evtParam2: u32,
    actId: u16, actParam1: u16, actParam2: u32, delaySec: u32)

  datatype Linkage = Linkage(
    id: u16, workMode: u8, flag: u8, evtId: u16, evtParam1: u16, evtParam2: u32,
    actDevid: u32, actId: u16, actParam1: u16, actParam2: u32)

  const NO_TIMER := Timer(0, 0, 0, 0, 0, 0, 0, 0, 0, 0)
  const NO_DELAY := Delay(0, 0, 0, 0, 0, 0, 0, 0, 0, 0)
  const NO_LINKAGE := Linkage(0, 0, 0, 0, 0, 0, 0, 0, 0, 0)

  /** A record together with its status. Only timers use `expired`. */
  datatype Slot<T> = Slot(value: T, active: bool, expired: bool)

  function EmptySlots<T>(zero: T, n: nat): (s: seq<Slot<T>>)
    ensures |s| == n && forall i :: 0 <= i < n ==> s[i] == Slot(zero, false, false)
  {
    seq(n, _ => Slot(zero, false, false))
  }

  datatype Info = Info(cls: int, interface: int, mac: seq<u8>)

  datatype DevRecord = DevRecord(
    id: u32, driver: u32, info: Info, workMode: nat,
    timers: seq<Slot<Timer>>, delays: seq<Slot<Delay>>, links: seq<Slot<Linkage>>)

  predicate Shaped(d: DevRecord) {
    |d.timers| == MAX_TIMERS && |d.delays| == MAX_DELAYS && |d.links| == MAX_LINKS
  }

  function NewDev(id: u32, driver: u32, info: Info): (d: DevRecord)
    ensures Shaped(d)
  {
    DevRecord(id, driver, info, WORK_MODE_ALL,
              EmptySlots(NO_TIMER, MAX_TIMERS), EmptySlots(NO_DELAY, MAX_DELAYS), EmptySlots(NO_LINKAGE, MAX_LINKS))
  }

  /** A device record with its fixed-size slot arrays. */
  type Dev = d: DevRecord | Shaped(d) witness NewDev(0, 0, Info(0, 0, []))

  /** What the asynchronous queue carries. */
  datatype Command =
    | Probe(drvid: u32)
    | SetStatus(devid: u32, pairs: seq<(u16, u16)>)
    | GetStatus(devid: u32)
    | DoAction(devid: u32, id: u16, param1: u16, param2: u32)

  datatype Event = Event(devid: u32, id: u16, param1: u16, param2: u32)

  const EVT_STATUS_UPDATED: u16 := 0
  const EVT_DEV_UPDATED: u16 := 1
  const EVT_SENSOR_TRIGGERED: u16 := 2
  const EVT_SENSOR_RECOVERED: u16 := 3
  const EVT_MODE_CHANGED: u16 := 4
  const EVT_IR_KEY: u16 := 5
  const DEV_OFFLINE: u16 := 0
  const DEV_NEW_ADD: u16 := 1
  const DEV_ONLINE: u16 := 2

  // ---------------------------------------------------------------- linkages

  predicate LinkMatches(s: Slot<Linkage>, mode: nat, evt: Event) {
    && s.active
    && Bit(s.value.workMode, mode)
    && evt.id == s.value.evtId && evt.param1 == s.value.evtParam1 && evt.param2 == s.value.evtParam2
  }

  function LinkCommand(l: Linkage): Command {
    if Bit(l.flag, 0) then DoAction(l.actDevid, l.actId, l.actParam1, l.actParam2)
    else SetStatus(l.actDevid, [(l.actId, l.actParam1)])
  }

  /** The slots among the first `n` that an event triggers, in slot order. */
  function Triggered(links: seq<Slot<Linkage>>, n: nat, mode: nat, evt: Event): (ks: seq<nat>)
    requires n <= |links|
    ensures forall i :: 0 <= i < |ks| ==> ks[i] < n && LinkMatches(links[ks[i]], mode, evt)
    ensures forall i, j :: 0 <= i < j < |ks| ==> ks[i] < ks[j]
    ensures forall k :: 0 <= k < n && LinkMatches(links[k], mode, evt) ==> k in ks
  {
    if n == 0 then []
    else Triggered(links, n - 1, mode, evt) + (if LinkMatches(links[n - 1], mode, evt) then [n - 1] else [])
  }

  function LinkCommands(links: seq<Slot<Linkage>>, ks: seq<nat>): (cs: seq<Command>)
    requires forall i :: 0 <= i < |ks| ==> ks[i] < |links|
    ensures |cs| == |ks|
  {
    seq(|ks|, i requires 0 <= i < |ks| => LinkCommand(links[ks[i]].value))
  }

  /** One more slot in the linkage loop. */
  lemma {:induction false} TriggeredStep(links: seq<Slot<Linkage>>, n: nat, mode: nat, evt: Event)
    requires n < |links|
    ensures LinkCommands(links, Triggered(links, n + 1, mode, evt))
         == LinkCommands(links, Triggered(links, n, mode, evt))
            + (if LinkMatches(links[n], mode, evt) then [LinkCommand(links[n].value)] else [])
  {
  }

  // ---------------------------------------------------------------- timers

  /** A reading of the clock: a day number and a second of that day. */
  datatype Clock = Clock(day: nat, sec: nat)

  const DAY_SECONDS := 86400
  const FIRE_WINDOW := 5

  predicate ValidClock(c: Clock) {
    c.sec < DAY_SECONDS
  }

  /** Readings never go back. */
  predicate NotAfter(a: Clock, b: Clock) {
    a.day < b.day || (a.day == b.day && a.sec <= b.sec)
  }

  /** `tm_wday`: day 0 was a Thursday. */
  function WeekDay(c: Clock): (w: nat)
    ensures w < 7
  {
    (c.day + 4) % 7
  }

  function TimerSecond(t: Timer): nat {
    t.hour * 3600 + t.min * 60 + t.sec
  }

  /** What a clock shows at a second of the day. */
  predicate Shows(sec: nat, hour: nat, min: nat, second: nat) {
    sec / 3600 == hour && sec / 60 % 60 == min && sec % 60 == second
  }

  /** A timer with a proper time of day stands for the second at which a clock shows that time. */
  lemma {:induction false} TimerShows(t: Timer, sec: nat)
    requires t.min < 60 && t.sec < 60
    ensures TimerSecond(t) == sec <==> Shows(sec, t.hour, t.min, t.sec)
  {
    var h, m, s := sec / 3600, sec / 60 % 60, sec % 60;
    assert sec == 3600 * h + 60 * m + s;
    if TimerSecond(t) == sec {
      var a: int, b: int, c: int := t.hour, t.min, t.sec;
      assert sec == 60 * (60 * a + b) + c;
      assert sec / 60 == 60 * a + b && sec % 60 == c;
      assert sec / 3600 == a && (60 * a + b) % 60 == b;
    }
  }

  predicate OneShot(t: Timer) {
    Bit(t.wday, 7)
  }

  predicate MatchesDay(t: Timer, c: Clock) {
    Bit(t.wday, WeekDay(c))
  }

  /** A new day has begun since the last reading, as far as the marker can tell. */
  predicate Rollover(prevSec: nat, c: Clock) {
    c.sec < prevSec && c.sec < 10
  }

  function Rearmed(s: Slot<Timer>, c: Clock): Slot<Timer> {
    if s.active then s.(expired := !MatchesDay(s.value, c)) else s
  }

  predicate Fires(s: Slot<Timer>, mode: nat, c: Clock) {
    && s.active && !s.expired
    && Bit(s.value.workMode, mode)
    && MatchesDay(s.value, c)
    && TimerSecond(s.value) <= c.sec <= TimerSecond(s.value) + FIRE_WINDOW
  }

  function AfterFiring(s: Slot<Timer>): Slot<Timer> {
    if OneShot(s.value) then Slot(NO_TIMER, false, false) else s.(expired := true)
  }

  function TimerCommand(devid: u32, t: Timer): Command {
    if Bit(t.flag, 0) then DoAction(devid, t.actId, t.actParam1, t.actParam2)
    else SetStatus(devid, [(t.actId, t.actParam1)])
  }

  /** A slot as the firing loop sees it. */
  function Armed(s: Slot<Timer>, prevSec: nat, c: Clock): Slot<Timer> {
    if Rollover(prevSec, c) then Rearmed(s, c) else s
  }

  /** The slot fires in the callback of a device whose own mode mask lets it run. */
  predicate SlotFires(d: Dev, k: nat, mode: nat, prevSec: nat, c: Clock)
    requires k < |d.timers|
  {
    Bit(d.workMode, mode) && Fires(Armed(d.timers[k], prevSec, c), mode, c)
  }

  function SlotAfter(d: Dev, k: nat, mode: nat, prevSec: nat, c: Clock): Slot<Timer>
    requires k < |d.timers|
  {
    var s := Armed(d.timers[k], prevSec, c);
    if SlotFires(d, k, mode, prevSec, c) then AfterFiring(s) else s
  }

  /** The device after `_check_dev_timer_and_delay`. */
  function Ticked(d: Dev, mode: nat, prevSec: nat, c: Clock): Dev {
    d.(timers := seq(|d.timers|, k requires 0 <= k < |d.timers| => SlotAfter(d, k, mode, prevSec, c)))
  }

  /** The commands it queues for the first `n` slots, in slot order. */
  function TickCommands(d: Dev, n: nat, mode: nat, prevSec: nat, c: Clock): seq<Command>
    requires n <= |d.timers|
  {
    if n == 0 then []
    else TickCommands(d, n - 1, mode, prevSec, c)
         + (if SlotFires(d, n - 1, mode, prevSec, c) then [TimerCommand(d.id, d.timers[n - 1].value)] else [])
  }

  lemma {:induction false} AllModesBit(mode: nat)
    requires mode < WORK_MODES
    ensures Bit(WORK_MODE_ALL, mode)
  {
    assert mode == 0 || mode == 1 || mode == 2;
  }
}
