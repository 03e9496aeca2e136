/** What clients are told when devices come, go and return and when the mode changes, and what a
    driver then lists. The numbers are those of `include/hsb_device.h`. */
module Announcements {
  import opened Device
  import opened Registry
  import opened Box
  import opened BoxRuns

  /** A device that comes online is announced once, under its id: as new (1) if it was created, as
      returning (2) if it came from the offline queue. Its own linkages may answer. */
  lemma {:induction false} OnlineAnnounced(r: Reg, driver: u32, info: Info)
    ensures var r' := Online(r, driver, info); var d := r'.online[|r.online|];
      && r'.events == r.events + [Event(d.id, 1, if IsNew(r, driver, info.mac) then 1 else 2, 0)]
      && (IsNew(r, driver, info.mac) ==> d.id == r.nextId && d.info == info && d.driver == driver)
      && (!IsNew(r, driver, info.mac) ==> d in r.offline)
      && r'.workMode == r.workMode && r'.secToday == r.secToday
      && r'.acts == r.acts + LinkageCommands(r', Event(d.id, 1, if IsNew(r, driver, info.mac) then 1 else 2, 0))
  {
    hide IndexOf, Triggered;
  }

  /** A device that goes offline is announced once (0), and by then its linkages answer no more; a call
      for any other id changes nothing. */
  lemma {:induction false} OfflineAnnounced(r: Reg, id: u32)
    requires AllApart(r.online)
    ensures IndexOf(r.online, id) < |r.online| ==>
      && Offline(r, id).events == r.events + [Event(id, 1, 0, 0)]
      && Offline(r, id).offline == r.offline + [r.online[IndexOf(r.online, id)]]
      && Offline(r, id).acts == r.acts
    ensures IndexOf(r.online, id) == |r.online| ==> Offline(r, id) == r
  {
    var i := IndexOf(r.online, id);
    if i < |r.online| {
      var q := RemoveAt(r.online, i);
      forall j | 0 <= j < |q| ensures q[j].id != id {
        assert j < i ==> Apart(r.online[j], r.online[i]);
        assert j >= i ==> Apart(r.online[i], r.online[j + 1]);
      }
      assert IndexOf(q, id) == |q|;
      assert r.acts + [] == r.acts;
    }
  }

  /** Modes 0, 1 and 2 are taken and announced as an event of the box (4); others change nothing. */
  lemma {:induction false} ModeAnnounced(r: Reg, mode: int)
    ensures mode == 0 || mode == 1 || mode == 2 ==>
      ModeSet(r, mode).workMode == mode && ModeSet(r, mode).events == r.events + [Event(0, 4, mode, 0)]
    ensures mode < 0 || mode > 2 ==> ModeSet(r, mode) == r
    ensures ModeSet(r, mode).online == r.online && ModeSet(r, mode).offline == r.offline
  {
    hide LinkageCommands;
  }

  /** A virtual switch that announces itself and is not listed is listed last, with its address, not
      idle, under the id of its record, whose address is its own followed by two zero bytes. */
  lemma {:induction false} SwitchListed(b: BoxState, ip: nat, info: VsInfo)
    requires VsIndexOfMac(b.vs, info.mac) == |b.vs|
    ensures var b' := Apply(b, VsRegister(ip, info)); var v := b'.vs[|b.vs|]; var d := b'.reg.online[|b.reg.online|];
      && |b'.vs| == |b.vs| + 1 && b'.vs[..|b.vs|] == b.vs && b'.cz == b.cz
      && v.ip == ip && v.idle == 0 && v.info == info && v.id == d.id
      && d.driver == 1 && d.info.mac == info.mac + [0, 0]
  {
    OnlineNewest(b.reg, VS_DRIVER, Info(info.cls, info.interface, PadMac(info.mac)));
    hide Online;
  }

  /** The same for a Zigbee device, with its short address and end point. */
  lemma {:induction false} ZigbeeListed(b: BoxState, shortAddr: u16, endPoint: u16, info: CzInfo)
    requires CzIndexOfMac(b.cz, info.mac) == |b.cz|
    ensures var b' := Apply(b, CzRegister(shortAddr, endPoint, info));
      var v := b'.cz[|b.cz|]; var d := b'.reg.online[|b.reg.online|];
      && |b'.cz| == |b.cz| + 1 && b'.cz[..|b.cz|] == b.cz && b'.vs == b.vs
      && v.shortAddr == shortAddr && v.endPoint == endPoint && v.info == info && v.id == d.id
      && d.driver == 2 && d.info.mac == info.mac
  {
    OnlineNewest(b.reg, CZ_DRIVER, Info(info.cls, info.interface, info.mac));
    hide Online;
  }

  /** A listed device that announces itself again changes nothing. */
  lemma {:induction false} ListedIgnored(b: BoxState, ip: nat, vs: VsInfo, shortAddr: u16, endPoint: u16, cz: CzInfo)
    ensures (exists i :: 0 <= i < |b.vs| && b.vs[i].info.mac == vs.mac) ==> Apply(b, VsRegister(ip, vs)) == b
    ensures (exists i :: 0 <= i < |b.cz| && b.cz[i].info.mac == cz.mac) ==>
      Apply(b, CzRegister(shortAddr, endPoint, cz)) == b
  {
  }
}
