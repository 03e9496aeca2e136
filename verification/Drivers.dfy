/** The two drivers as objects over the shared control block, proved to do what `Box` says. */
module Drivers {
  import opened Device
  import opened Registry
  import opened Box
  import opened DeviceControl

  class VirtualSwitchDriver {
    var queue: seq<VsDev>
    const cb: ControlBlock

    constructor (cb: ControlBlock)
      ensures this.cb == cb && queue == []
    {
      this.cb := cb;
      queue := [];
    }

    /** `_find_dev_by_mac`. */
    method FindDevByMac(mac: seq<u8>) returns (i: nat)
      ensures i == VsIndexOfMac(queue, mac)
    {
      i := 0;
      while i < |queue|
        invariant i <= |queue| && forall j :: 0 <= j < i ==> queue[j].info.mac != mac
      {
        if queue[i].info.mac == mac {
          return;
        }
        i := i + 1;
      }
    }

    /** `_find_dev_by_ip`. */
    method FindDevByIp(ip: nat) returns (i: nat)
      ensures i == VsIndexOfIp(queue, ip)
    {
      i := 0;
      while i < |queue|
        invariant i <= |queue| && forall j :: 0 <= j < i ==> queue[j].ip != ip
      {
        if queue[i].ip == ip {
          return;
        }
        i := i + 1;
      }
    }

    /** `_register_device`. */
    method RegisterDevice(ip: nat, info: VsInfo)
      modifies this, cb
      ensures BoxState(cb.State(), queue, []) == VsRegistered(BoxState(old(cb.State()), old(queue), []), ip, info)
    {
      var i := FindDevByMac(info.mac);
      if i < |queue| {
        return;
      }
      var devid := cb.DevOnline(VS_DRIVER, Info(info.cls, info.interface, PadMac(info.mac)));
      queue := queue + [VsDev(devid, ip, 0, info)];
    }

    /** `_refresh_device`, after a message from this address. */
    method RefreshDevice(ip: nat)
      modifies this
      ensures queue == VsRefreshed(old(queue), ip)
    {
      var i := FindDevByIp(ip);
      if i < |queue| {
        queue := queue[i := queue[i].(idle := 0)];
      }
    }

    /** `_remove_timeout_dev`: entries are popped while the loop still counts up to the old
        length; a look past the end stops it. */
    method RemoveTimeoutDev()
      modifies this, cb
      ensures queue == SweptVs(old(queue)) && cb.State() == SweptReg(old(cb.State()), old(queue))
    {
      hide Offline, ControlBlock.State, SweptVs, SweptReg;
      var len := |queue|;
      var i := 0;
      assert queue[..0] + SweptVs(queue[0..]) == SweptVs(queue) && queue[0..] == queue;
      while i < len
        invariant i <= |queue| <= len
        invariant queue[..i] + SweptVs(queue[i..]) == SweptVs(old(queue))
        invariant SweptReg(cb.State(), queue[i..]) == SweptReg(old(cb.State()), old(queue))
        decreases |queue| - i, if i < |queue| then 1 else 0
      {
        if i >= |queue| {
          break;
        }
        ghost var rest, done := queue[i..], queue[..i];
        SweptCons(cb.State(), rest);
        if queue[i].idle > MAX_IDLE {
          var _ := cb.DevOffline(queue[i].id);
          queue := RemoveAt(queue, i);
          assert queue[i..] == rest[1..] && queue[..i] == done;
          continue;
        }
        ghost var older := queue[i].(idle := queue[i].idle + 1);
        queue := queue[i := queue[i].(idle := queue[i].idle + 1)];
        i := i + 1;
        assert queue[i..] == rest[1..] && queue[..i] == done + [older];
        assert done + ([older] + SweptVs(rest[1..])) == (done + [older]) + SweptVs(rest[1..]);
      }
      assert queue[i..] == [] && queue[..i] == queue;
      SweptNone(cb.State());
    }
  }

  lemma {:induction false} SweptCons(r: Reg, vs: seq<VsDev>)
    requires vs != []
    ensures vs[0].idle > MAX_IDLE ==>
      SweptVs(vs) == SweptVs(vs[1..]) && SweptReg(r, vs) == SweptReg(Offline(r, vs[0].id), vs[1..])
    ensures vs[0].idle <= MAX_IDLE ==>
      SweptVs(vs) == [vs[0].(idle := vs[0].idle + 1)] + SweptVs(vs[1..]) && SweptReg(r, vs) == SweptReg(r, vs[1..])
  {
  }

  lemma {:induction false} SweptNone(r: Reg)
    ensures SweptVs([]) == [] && SweptReg(r, []) == r
  {
  }

  function CzIndexOfId(cz: seq<CzDev>, id: u32): (i: nat)
    ensures i <= |cz| && (forall j :: 0 <= j < i ==> cz[j].id != id) && (i < |cz| ==> cz[i].id == id)
  {
    if cz == [] || cz[0].id == id then 0 else 1 + CzIndexOfId(cz[1..], id)
  }

  function CzIndexOfAddr(cz: seq<CzDev>, addr: u16): (i: nat)
    ensures i <= |cz| && (forall j :: 0 <= j < i ==> cz[j].shortAddr != addr) && (i < |cz| ==> cz[i].shortAddr == addr)
  {
    if cz == [] || cz[0].shortAddr == addr then 0 else 1 + CzIndexOfAddr(cz[1..], addr)
  }

  class ZigbeeDriver {
    var queue: seq<CzDev>
    const cb: ControlBlock

    constructor (cb: ControlBlock)
      ensures this.cb == cb && queue == []
    {
      this.cb := cb;
      queue := [];
    }

    /** `_find_dev_by_mac`. */
    method FindDevByMac(mac: seq<u8>) returns (i: nat)
      ensures i == CzIndexOfMac(queue, mac)
    {
      i := 0;
      while i < |queue|
        invariant i <= |queue| && forall j :: 0 <= j < i ==> queue[j].info.mac != mac
      {
        if queue[i].info.mac == mac {
          return;
        }
        i := i + 1;
      }
    }

    /** `_register_device`. */
    method RegisterDevice(shortAddr: u16, endPoint: u16, info: CzInfo)
      modifies this, cb
      ensures BoxState(cb.State(), [], queue)
           == CzRegistered(BoxState(old(cb.State()), [], old(queue)), shortAddr, endPoint, info)
    {
      var i := FindDevByMac(info.mac);
      if i < |queue| {
        return;
      }
      var devid := cb.DevOnline(CZ_DRIVER, Info(info.cls, info.interface, info.mac));
      queue := queue + [CzDev(devid, shortAddr, endPoint, info)];
    }

    /** `_find_dev_by_id`. */
    method FindDevById(devid: u32) returns (i: nat)
      ensures i == CzIndexOfId(queue, devid)
    {
      i := 0;
      while i < |queue|
        invariant i <= |queue| && forall j :: 0 <= j < i ==> queue[j].id != devid
      {
        if queue[i].id == devid {
          return;
        }
        i := i + 1;
      }
    }

    /** `_find_dev_by_short_addr`. */
    method FindDevByShortAddr(addr: u16) returns (i: nat)
      ensures i == CzIndexOfAddr(queue, addr)
    {
      i := 0;
      while i < |queue|
        invariant i <= |queue| && forall j :: 0 <= j < i ==> queue[j].shortAddr != addr
      {
        if queue[i].shortAddr == addr {
          return;
        }
        i := i + 1;
      }
    }
  }
}
