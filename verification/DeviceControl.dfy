/** `gl_dev_cb` and the functions that update it, each proved to do what its counterpart on
    values in `Registry` says. */
module DeviceControl {
  import opened Device
  import opened Registry

  class ControlBlock {
    var queue: seq<Dev>
    var offq: seq<Dev>
    var devId: u32
    var workMode: nat
    var secToday: nat
    /** The data queue of the asynchronous thread, and the notifications sent. */
    var acts: seq<Command>
    var events: seq<Event>

    function State(): Reg
      reads this
    {
      Reg(queue, offq, devId, workMode, secToday, acts, events)
    }

    /** `init_dev_module`. */
    constructor ()
      ensures State() == INITIAL
    {
      queue, offq, devId, workMode, secToday, acts, events := [], [], 1, 0, 0, [], [];
    }

    /** `_find_dev`. */
    method FindDev(id: u32) returns (i: nat)
      ensures i == IndexOf(queue, id)
    {
      i := 0;
      while i < |queue|
        invariant i <= |queue| && forall j :: 0 <= j < i ==> queue[j].id != id
      {
        if queue[i].id == id {
          return;
        }
        i := i + 1;
      }
    }

    /** `check_linkage`. */
    method CheckLinkage(devid: u32, evt: Event) returns (e: Error)
      requires evt.devid == devid
      modifies this`acts
      ensures acts == old(acts) + LinkageCommands(old(State()), evt)
      ensures e == Ok <==> IndexOf(queue, devid) < |queue| && Bit(queue[IndexOf(queue, devid)].workMode, workMode)
    {
      var i := FindDev(devid);
      if i == |queue| {
        return Others;
      }
      if !Bit(queue[i].workMode, workMode) {
        return Others;
      }
      PushLinks(queue[i].links, evt);
      return Ok;
    }

    /** The loop of `check_linkage`. */
    method PushLinks(links: seq<Slot<Linkage>>, evt: Event)
      modifies this`acts
      ensures acts == old(acts) + LinkCommands(links, Triggered(links, |links|, workMode, evt))
    {
      assert LinkCommands(links, Triggered(links, 0, workMode, evt)) == [];
      hide Triggered, LinkCommands, LinkCommand, Bit;
      for k := 0 to |links|
        invariant acts == old(acts) + LinkCommands(links, Triggered(links, k, workMode, evt))
      {
        TriggeredStep(links, k, workMode, evt);
        var s := links[k];
        if !s.active || !Bit(s.value.workMode, workMode) {
          continue;
        }
        if evt.id != s.value.evtId || evt.param1 != s.value.evtParam1 || evt.param2 != s.value.evtParam2 {
          continue;
        }
        PushLink(s.value);
      }
    }

    /** The action of one linkage. */
    method PushLink(l: Linkage)
      modifies this`acts
      ensures acts == old(acts) + [LinkCommand(l)]
    {
      if Bit(l.flag, 0) {
        acts := acts + [DoAction(l.actDevid, l.actId, l.actParam1, l.actParam2)];
      } else {
        acts := acts + [SetStatus(l.actDevid, [(l.actId, l.actParam1)])];
      }
    }

    /** `_dev_event`. */
    method DevEvent(evt: Event)
      modifies this`acts, this`events
      ensures State() == Notify(old(State()), evt)
    {
      var _ := CheckLinkage(evt.devid, evt);
      events := events + [evt];
    }

    /** `set_box_work_mode`. */
    method SetBoxWorkMode(mode: int) returns (e: Error)
      modifies this
      ensures State() == ModeSet(old(State()), mode)
      ensures e == if 0 <= mode < WORK_MODES then Ok else BadParam
    {
      if !(0 <= mode < WORK_MODES) {
        return BadParam;
      }
      workMode := mode;
      DevEvent(Event(0, EVT_MODE_CHANGED, mode, 0));
      return Ok;
    }

    /** `dev_online`, as one step: nothing else runs between its search and its update. */
    method DevOnline(driver: u32, info: Info) returns (devid: u32)
      modifies this
      ensures State() == Online(old(State()), driver, info) && devid == queue[|queue| - 1].id
    {
      var i := 0;
      while i < |offq|
        invariant i <= |offq| && State() == old(State())
        invariant forall j :: 0 <= j < i ==> !(offq[j].driver == driver && offq[j].info.mac == info.mac)
      {
        if offq[i].driver == driver && offq[i].info.mac == info.mac {
          break;
        }
        i := i + 1;
      }
      assert i == IndexOfKey(offq, driver, info.mac);
      if i == |offq| {
        var d := NewDev(devId, driver, info);
        devId := (devId + 1) % U32;
        queue := queue + [d];
        DevEvent(Event(d.id, EVT_DEV_UPDATED, DEV_NEW_ADD, 0));
        devid := d.id;
      } else {
        var d := offq[i];
        offq := RemoveAt(offq, i);
        queue := queue + [d];
        DevEvent(Event(d.id, EVT_DEV_UPDATED, DEV_ONLINE, 0));
        devid := d.id;
      }
    }

    /** `dev_offline`. */
    method DevOffline(id: u32) returns (e: Error)
      modifies this
      ensures State() == Offline(old(State()), id)
      ensures e == if IndexOf(old(queue), id) == |old(queue)| then Others else Ok
    {
      var i := FindDev(id);
      if i == |queue| {
        return Others;
      }
      var d := queue[i];
      queue := RemoveAt(queue, i);
      offq := offq + [d];
      DevEvent(Event(id, EVT_DEV_UPDATED, DEV_OFFLINE, 0));
      return Ok;
    }

    /** `set_dev_timer`, `set_dev_delay` and `set_dev_linkage`. */
    method SetDevSlot(id: u32, v: Record) returns (e: Error)
      modifies this`queue
      ensures (State(), e) == SlotSet(old(State()), id, v)
    {
      var i := FindDev(id);
      if i == |queue| || RecordId(v) >= SlotCount(KindOf(v)) {
        return BadParam;
      }
      queue := queue[i := Stored(queue[i], v)];
      return Ok;
    }

    /** `del_dev_timer`, `del_dev_delay` and `del_dev_linkage`. */
    method DelDevSlot(id: u32, kind: SlotKind, k: u16) returns (e: Error)
      modifies this`queue
      ensures (State(), e) == SlotDeleted(old(State()), id, kind, k)
    {
      var i := FindDev(id);
      if i == |queue| || k >= SlotCount(kind) || !IsActive(queue[i], kind, k) {
        return BadParam;
      }
      queue := queue[i := Cleared(queue[i], kind, k)];
      return Ok;
    }

    /** `get_dev_timer`, `get_dev_delay` and `get_dev_linkage`. */
    method GetDevSlot(id: u32, kind: SlotKind, k: u16) returns (got: Lookup)
      ensures got == SlotGot(State(), id, kind, k)
    {
      var i := FindDev(id);
      if i == |queue| || k >= SlotCount(kind) || !IsActive(queue[i], kind, k) {
        return Missing;
      }
      return Found(RecordAt(queue[i], kind, k));
    }

    /** The first loop of `_check_dev_timer_and_delay`: a new day re-arms the active timers. */
    method Rearm(d: Dev, c: Clock, prevSec: nat) returns (slots: seq<Slot<Timer>>)
      ensures |slots| == |d.timers| && forall k :: 0 <= k < |slots| ==> slots[k] == Armed(d.timers[k], prevSec, c)
    {
      slots := d.timers;
      if c.sec < prevSec && c.sec < 10 {
        for cnt := 0 to |slots|
          invariant |slots| == |d.timers|
          invariant forall k :: 0 <= k < cnt ==> slots[k] == Rearmed(d.timers[k], c)
          invariant forall k :: cnt <= k < |slots| ==> slots[k] == d.timers[k]
        {
          if !slots[cnt].active {
            continue;
          }
          slots := slots[cnt := slots[cnt].(expired := !MatchesDay(slots[cnt].value, c))];
        }
      }
    }

    /** The firing loop of `_check_dev_timer_and_delay`. */
    method Fire(d: Dev, armed: seq<Slot<Timer>>, prevSec: nat, c: Clock) returns (slots: seq<Slot<Timer>>)
      requires |armed| == |d.timers| && forall k :: 0 <= k < |armed| ==> armed[k] == Armed(d.timers[k], prevSec, c)
      modifies this`acts
      ensures |slots| == |armed| && forall k :: 0 <= k < |slots| ==> slots[k] == SlotAfter(d, k, workMode, prevSec, c)
      ensures acts == old(acts) + TickCommands(d, |d.timers|, workMode, prevSec, c)
    {
      slots := armed;
      if !Bit(d.workMode, workMode) {
        NoCommands(d, |d.timers|, workMode, prevSec, c);
        return;
      }
      for cnt := 0 to |slots|
        invariant |slots| == |armed|
        invariant forall k :: 0 <= k < cnt ==> slots[k] == SlotAfter(d, k, workMode, prevSec, c)
        invariant forall k :: cnt <= k < |slots| ==> slots[k] == armed[k]
        invariant acts == old(acts) + TickCommands(d, cnt, workMode, prevSec, c)
      {
        var s := slots[cnt];
        if !s.active || s.expired {
          continue;
        }
        if !Bit(s.value.workMode, workMode) || !MatchesDay(s.value, c) {
          continue;
        }
        var secTimer := TimerSecond(s.value);
        if secTimer > c.sec || c.sec - secTimer > FIRE_WINDOW {
          continue;
        }
        if Bit(s.value.flag, 0) {
          acts := acts + [DoAction(d.id, s.value.actId, s.value.actParam1, s.value.actParam2)];
        } else {
          acts := acts + [SetStatus(d.id, [(s.value.actId, s.value.actParam1)])];
        }
        if Bit(s.value.wday, 7) {
          slots := slots[cnt := Slot(NO_TIMER, false, false)];
          continue;
        }
        slots := slots[cnt := s.(expired := true)];
      }
    }

    /** `_check_dev_timer_and_delay` on the `i`-th online device: it reads the clock and moves
        the day marker. */
    method CheckDev(i: nat, c: Clock)
      requires i < |queue|
      modifies this`queue, this`secToday, this`acts
      ensures var d := old(queue)[i];
        && queue == old(queue)[i := Ticked(d, workMode, old(secToday), c)]
        && acts == old(acts) + TickCommands(d, |d.timers|, workMode, old(secToday), c)
        && secToday == c.sec
    {
      hide Armed, SlotAfter, TickCommands;
      var d := queue[i];
      var armed := Rearm(d, c, secToday);
      var slots := Fire(d, armed, secToday, c);
      assert d.(timers := slots) == Ticked(d, workMode, secToday, c);
      secToday := c.sec;
      queue := queue[i := d.(timers := slots)];
    }

    /** `check_timer_and_delay`: the callback runs on every online device in turn. */
    method CheckTimerAndDelay(clocks: seq<Clock>)
      requires |clocks| == |queue|
      modifies this`queue, this`secToday, this`acts
      ensures State() == Swept(old(State()), clocks)
    {
      hide Ticked, TickCommands;
      ghost var r := State();
      for i := 0 to |queue|
        invariant |queue| == |r.online|
        invariant forall j :: 0 <= j < i ==> queue[j] == TickedQueue(r, clocks)[j]
        invariant forall j :: i <= j < |queue| ==> queue[j] == r.online[j]
        invariant secToday == PrevSec(r.secToday, clocks, i)
        invariant acts == r.acts + SweepCommands(r, clocks, i)
      {
        CheckDev(i, clocks[i]);
      }
      assert queue == TickedQueue(r, clocks);
    }
  }

  lemma {:induction false} NoCommands(d: Dev, n: nat, mode: nat, prevSec: nat, c: Clock)
    requires n <= |d.timers| && !Bit(d.workMode, mode)
    ensures TickCommands(d, n, mode, prevSec, c) == []
  {
    if n > 0 {
      NoCommands(d, n - 1, mode, prevSec, c);
    }
  }
}
