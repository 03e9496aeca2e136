/** The device control block of `core_daemon/device.c`: online and offline queues, the id
    counter, the work mode and the day marker, as values and as the object that changes them. */
module Registry {
  import opened Device

  /** `acts` are the commands queued for the asynchronous thread, `events` those notified. */
  datatype Reg = Reg(
    online: seq<Dev>, offline: seq<Dev>, nextId: u32,
    workMode: nat, secToday: nat,
    acts: seq<Command>, events: seq<Event>)

  /** `init_dev_module`: id 0 is the box itself. */
  const INITIAL := Reg([], [], 1, 0, 0, [], [])

  /** The first place of the device with this id, or the length of the queue. */
  function IndexOf(q: seq<Dev>, id: u32): (i: nat)
    ensures i <= |q|
    ensures forall j :: 0 <= j < i ==> q[j].id != id
    ensures i < |q| ==> q[i].id == id
  {
    if q == [] || q[0].id == id then 0 else 1 + IndexOf(q[1..], id)
  }

  /** The first place of the device with this driver and MAC address, or the length of the queue. */
  function IndexOfKey(q: seq<Dev>, driver: u32, mac: seq<u8>): (i: nat)
    ensures i <= |q|
    ensures forall j :: 0 <= j < i ==> !(q[j].driver == driver && q[j].info.mac == mac)
    ensures i < |q| ==> q[i].driver == driver && q[i].info.mac == mac
  {
    if q == [] || (q[0].driver == driver && q[0].info.mac == mac) then 0 else 1 + IndexOfKey(q[1..], driver, mac)
  }

  function RemoveAt<T>(q: seq<T>, i: nat): (r: seq<T>)
    requires i < |q|
    ensures |r| == |q| - 1
    ensures forall j :: 0 <= j < i ==> r[j] == q[j]
    ensures forall j :: i <= j < |r| ==> r[j] == q[j + 1]
  {
    q[..i] + q[i + 1..]
  }

  // ---------------------------------------------------------------- events and modes

  /** The commands a device's linkages queue for an event; a device that is not online has none. */
  function LinkageCommands(r: Reg, evt: Event): seq<Command> {
    var i := IndexOf(r.online, evt.devid);
    if i == |r.online| || !Bit(r.online[i].workMode, r.workMode) then []
    else
      var links := r.online[i].links;
      LinkCommands(links, Triggered(links, |links|, r.workMode, evt))
  }

  /** `_dev_event`. */
  function Notify(r: Reg, evt: Event): Reg {
    r.(acts := r.acts + LinkageCommands(r, evt), events := r.events + [evt])
  }

  /** `set_box_work_mode`. */
  function ModeSet(r: Reg, mode: int): Reg {
    if 0 <= mode < WORK_MODES then Notify(r.(workMode := mode), Event(0, EVT_MODE_CHANGED, mode, 0)) else r
  }

  // ---------------------------------------------------------------- coming and going

  /** `dev_online`: the device and the registry after it. Only the offline queue is searched. */
  function Online(r: Reg, driver: u32, info: Info): (r': Reg)
    ensures |r'.online| == |r.online| + 1
  {
    var i := IndexOfKey(r.offline, driver, info.mac);
    if i == |r.offline| then
      var d := NewDev(r.nextId, driver, info);
      var r1 := r.(online := r.online + [d], nextId := (r.nextId + 1) % U32);
      Notify(r1, Event(d.id, EVT_DEV_UPDATED, DEV_NEW_ADD, 0))
    else
      var d := r.offline[i];
      var r1 := r.(online := r.online + [d], offline := RemoveAt(r.offline, i));
      Notify(r1, Event(d.id, EVT_DEV_UPDATED, DEV_ONLINE, 0))
  }

  /** `dev_offline`. */
  function Offline(r: Reg, id: u32): Reg {
    var i := IndexOf(r.online, id);
    if i == |r.online| then r
    else
      var r1 := r.(online := RemoveAt(r.online, i), offline := r.offline + [r.online[i]]);
      Notify(r1, Event(id, EVT_DEV_UPDATED, DEV_OFFLINE, 0))
  }

  // ---------------------------------------------------------------- slots

  datatype SlotKind = TimerSlot | DelaySlot | LinkSlot
  datatype Record = TimerRecord(timer: Timer) | DelayRecord(delay: Delay) | LinkRecord(link: Linkage)

  function KindOf(v: Record): SlotKind {
    match v
    case TimerRecord(_) => TimerSlot
    case DelayRecord(_) => DelaySlot
    case LinkRecord(_) => LinkSlot
  }

  function RecordId(v: Record): u16 {
    match v
    case TimerRecord(t) => t.id
    case DelayRecord(d) => d.id
    case LinkRecord(l) => l.id
  }

  function SlotCount(kind: SlotKind): nat {
    match kind
    case TimerSlot => MAX_TIMERS
    case DelaySlot => MAX_DELAYS
    case LinkSlot => MAX_LINKS
  }

  function Stored(d: Dev, v: Record): Dev
    requires RecordId(v) < SlotCount(KindOf(v))
  {
    match v
    case TimerRecord(t) => d.(timers := d.timers[t.id := Slot(t, true, false)])
    case DelayRecord(y) => d.(delays := d.delays[y.id := d.delays[y.id].(value := y, active := true)])
    case LinkRecord(l) => d.(links := d.links[l.id := d.links[l.id].(value := l, active := true)])
  }

  predicate IsActive(d: Dev, kind: SlotKind, k: nat)
    requires k < SlotCount(kind)
  {
    match kind
    case TimerSlot => d.timers[k].active
    case DelaySlot => d.delays[k].active
    case LinkSlot => d.links[k].active
  }

  function RecordAt(d: Dev, kind: SlotKind, k: nat): Record
    requires k < SlotCount(kind)
  {
    match kind
    case TimerSlot => TimerRecord(d.timers[k].value)
    case DelaySlot => DelayRecord(d.delays[k].value)
    case LinkSlot => LinkRecord(d.links[k].value)
  }

  function Cleared(d: Dev, kind: SlotKind, k: nat): Dev
    requires k < SlotCount(kind)
  {
    match kind
    case TimerSlot => d.(timers := d.timers[k := Slot(NO_TIMER, false, false)])
    case DelaySlot => d.(delays := d.delays[k := d.delays[k].(value := NO_DELAY, active := false)])
    case LinkSlot => d.(links := d.links[k := d.links[k].(value := NO_LINKAGE, active := false)])
  }

  /** `set_dev_timer`, `set_dev_delay`, `set_dev_linkage`. */
  function SlotSet(r: Reg, id: u32, v: Record): (Reg, Error)
  {
    var i := IndexOf(r.online, id);
    if i == |r.online| || RecordId(v) >= SlotCount(KindOf(v)) then (r, BadParam)
    else (r.(online := r.online[i := Stored(r.online[i], v)]), Ok)
  }

  /** `del_dev_timer`, `del_dev_delay`, `del_dev_linkage`. */
  function SlotDeleted(r: Reg, id: u32, kind: SlotKind, k: u16): (Reg, Error)
  {
    var i := IndexOf(r.online, id);
    if i == |r.online| || k >= SlotCount(kind) || !IsActive(r.online[i], kind, k) then (r, BadParam)
    else (r.(online := r.online[i := Cleared(r.online[i], kind, k)]), Ok)
  }

  datatype Lookup = Missing | Found(record: Record)

  /** `get_dev_timer`, `get_dev_delay`, `get_dev_linkage`. */
  function SlotGot(r: Reg, id: u32, kind: SlotKind, k: u16): Lookup
  {
    var i := IndexOf(r.online, id);
    if i == |r.online| || k >= SlotCount(kind) || !IsActive(r.online[i], kind, k) then Missing
    else Found(RecordAt(r.online[i], kind, k))
  }

  // ---------------------------------------------------------------- ticks

  /** The marker the `i`-th device of a sweep compares with: the previous device's reading. */
  function PrevSec(secToday: nat, clocks: seq<Clock>, i: nat): nat
    requires i <= |clocks|
  {
    if i == 0 then secToday else clocks[i - 1].sec
  }

  function TickedQueue(r: Reg, clocks: seq<Clock>): (q: seq<Dev>)
    requires |clocks| == |r.online|
    ensures |q| == |r.online|
  {
    seq(|r.online|, i requires 0 <= i < |r.online| =>
      Ticked(r.online[i], r.workMode, PrevSec(r.secToday, clocks, i), clocks[i]))
  }

  /** The commands of the first `n` devices of a sweep. */
  function SweepCommands(r: Reg, clocks: seq<Clock>, n: nat): seq<Command>
    requires n <= |clocks| == |r.online|
  {
    if n == 0 then []
    else
      var d := r.online[n - 1];
      SweepCommands(r, clocks, n - 1)
      + TickCommands(d, |d.timers|, r.workMode, PrevSec(r.secToday, clocks, n - 1), clocks[n - 1])
  }

  /** `check_timer_and_delay`, with one clock reading for each device in the queue. */
  function Swept(r: Reg, clocks: seq<Clock>): Reg
    requires |clocks| == |r.online|
  {
    r.(online := TickedQueue(r, clocks),
       secToday := PrevSec(r.secToday, clocks, |clocks|),
       acts := r.acts + SweepCommands(r, clocks, |clocks|))
  }
}
