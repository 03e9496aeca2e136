/** The registry together with the queues of its two drivers
    (`core_daemon/driver_virtual_switch.c`, `core_daemon/driver_cg_zigbee.c`), and what every
    step of the box keeps. */
module Box {
  import opened Device
  import opened Registry

  const VS_DRIVER: u32 := 1
  const CZ_DRIVER: u32 := 2
  const MAX_IDLE := 10

  datatype VsInfo = VsInfo(cls: u16, interface: u16, mac: seq<u8>)
  datatype VsDev = VsDev(id: u32, ip: nat, idle: nat, info: VsInfo)

  datatype CzInfo = CzInfo(cls: u16, interface: u16, mac: seq<u8>)
  datatype CzDev = CzDev(id: u32, shortAddr: u16, endPoint: u16, info: CzInfo)

  datatype BoxState = BoxState(reg: Reg, vs: seq<VsDev>, cz: seq<CzDev>)

  const INITIAL_BOX := BoxState(INITIAL, [], [])

  // ---------------------------------------------------------------- the drivers on values

  function VsIndexOfMac(vs: seq<VsDev>, mac: seq<u8>): (i: nat)
    ensures i <= |vs| && (forall j :: 0 <= j < i ==> vs[j].info.mac != mac) && (i < |vs| ==> vs[i].info.mac == mac)
  {
    if vs == [] || vs[0].info.mac == mac then 0 else 1 + VsIndexOfMac(vs[1..], mac)
  }

  function CzIndexOfMac(cz: seq<CzDev>, mac: seq<u8>): (i: nat)
    ensures i <= |cz| && (forall j :: 0 <= j < i ==> cz[j].info.mac != mac) && (i < |cz| ==> cz[i].info.mac == mac)
  {
    if cz == [] || cz[0].info.mac == mac then 0 else 1 + CzIndexOfMac(cz[1..], mac)
  }

  function VsIndexOfIp(vs: seq<VsDev>, ip: nat): (i: nat)
    ensures i <= |vs| && (forall j :: 0 <= j < i ==> vs[j].ip != ip) && (i < |vs| ==> vs[i].ip == ip)
  {
    if vs == [] || vs[0].ip == ip then 0 else 1 + VsIndexOfIp(vs[1..], ip)
  }

  /** A six-byte MAC address in the eight bytes of the common record. */
  function PadMac(mac: seq<u8>): seq<u8> {
    mac + [0, 0]
  }

  function NewestId(r: Reg): u32
    requires |r.online| > 0
  {
    r.online[|r.online| - 1].id
  }

  /** `_register_device` of the virtual switch driver. */
  function VsRegistered(b: BoxState, ip: nat, info: VsInfo): BoxState {
    if VsIndexOfMac(b.vs, info.mac) < |b.vs| then b
    else
      var r := Online(b.reg, VS_DRIVER, Info(info.cls, info.interface, PadMac(info.mac)));
      b.(reg := r, vs := b.vs + [VsDev(NewestId(r), ip, 0, info)])
  }

  /** `_register_device` of the Zigbee driver. */
  function CzRegistered(b: BoxState, shortAddr: u16, endPoint: u16, info: CzInfo): BoxState {
    if CzIndexOfMac(b.cz, info.mac) < |b.cz| then b
    else
      var r := Online(b.reg, CZ_DRIVER, Info(info.cls, info.interface, info.mac));
      b.(reg := r, cz := b.cz + [CzDev(NewestId(r), shortAddr, endPoint, info)])
  }

  /** `_refresh_device` on the device a message came from. */
  function VsRefreshed(vs: seq<VsDev>, ip: nat): seq<VsDev> {
    var i := VsIndexOfIp(vs, ip);
    if i < |vs| then vs[i := vs[i].(idle := 0)] else vs
  }

  /** The driver queue after `_remove_timeout_dev`: silent devices dropped, the others one
      sweep older, in the same order. */
  function SweptVs(vs: seq<VsDev>): seq<VsDev> {
    if vs == [] then []
    else if vs[0].idle > MAX_IDLE then SweptVs(vs[1..])
    else [vs[0].(idle := vs[0].idle + 1)] + SweptVs(vs[1..])
  }

  /** The registry after it: `dev_offline` for each dropped device. */
  function SweptReg(r: Reg, vs: seq<VsDev>): Reg
    decreases |vs|
  {
    if vs == [] then r
    else if vs[0].idle > MAX_IDLE then SweptReg(Offline(r, vs[0].id), vs[1..])
    else SweptReg(r, vs[1..])
  }

  // ---------------------------------------------------------------- the invariant

  /** Two devices share neither their id nor their driver and MAC address. */
  predicate Apart(d: Dev, e: Dev) {
    d.id != e.id && !(d.driver == e.driver && d.info.mac == e.info.mac)
  }

  ghost predicate AllApart(q: seq<Dev>) {
    forall i, j :: 0 <= i < j < |q| ==> Apart(q[i], q[j])
  }

  ghost predicate CrossApart(p: seq<Dev>, q: seq<Dev>) {
    forall i, j :: 0 <= i < |p| && 0 <= j < |q| ==> Apart(p[i], q[j])
  }

  /** One more than the last id handed out. The 32-bit counter stands at 0 for 2^32. */
  function Ceiling(nextId: u32): (c: int)
    ensures 0 < c <= U32 && c % U32 == nextId
  {
    if nextId == 0 then U32 else nextId
  }

  /** The id has been handed out and is not the box's own. */
  predicate Known(d: Dev, nextId: u32) {
    0 < d.id < Ceiling(nextId) && d.workMode == WORK_MODE_ALL
  }

  ghost predicate AllKnown(q: seq<Dev>, nextId: u32) {
    forall i :: 0 <= i < |q| ==> Known(q[i], nextId)
  }

  ghost predicate RegInv(r: Reg) {
    && AllApart(r.online) && AllApart(r.offline) && CrossApart(r.online, r.offline)
    && AllKnown(r.online, r.nextId) && AllKnown(r.offline, r.nextId)
    && r.workMode < WORK_MODES
  }

  type Key = (u32, seq<u8>)

  /** Id and MAC address of the devices of one driver, in queue order. */
  function DriverKeys(q: seq<Dev>, driver: u32): seq<Key> {
    if q == [] then []
    else
      var d := q[|q| - 1];
      DriverKeys(q[..|q| - 1], driver) + (if d.driver == driver then [(d.id, d.info.mac)] else [])
  }

  function VsKeys(vs: seq<VsDev>): (ks: seq<Key>)
    ensures |ks| == |vs|
  {
    seq(|vs|, i requires 0 <= i < |vs| => (vs[i].id, PadMac(vs[i].info.mac)))
  }

  function CzKeys(cz: seq<CzDev>): (ks: seq<Key>)
    ensures |ks| == |cz|
  {
    seq(|cz|, i requires 0 <= i < |cz| => (cz[i].id, cz[i].info.mac))
  }

  /** Each driver's queue holds exactly the ids and MAC addresses of its online devices, even in
      the same order. */
  ghost predicate QueuesAgree(b: BoxState) {
    VsKeys(b.vs) == DriverKeys(b.reg.online, VS_DRIVER) && CzKeys(b.cz) == DriverKeys(b.reg.online, CZ_DRIVER)
  }

  ghost predicate IdleBounded(vs: seq<VsDev>) {
    forall i :: 0 <= i < |vs| ==> vs[i].idle <= MAX_IDLE + 1
  }

  ghost predicate Inv(b: BoxState) {
    RegInv(b.reg) && QueuesAgree(b) && IdleBounded(b.vs)
  }

  // ---------------------------------------------------------------- keys follow the queue

  lemma {:induction false} KeysAppend(q: seq<Dev>, d: Dev, driver: u32)
    ensures DriverKeys(q + [d], driver)
         == DriverKeys(q, driver) + (if d.driver == driver then [(d.id, d.info.mac)] else [])
  {
    assert (q + [d])[..|q|] == q;
  }

  lemma {:induction false} KeysConcat(p: seq<Dev>, q: seq<Dev>, driver: u32)
    ensures DriverKeys(p + q, driver) == DriverKeys(p, driver) + DriverKeys(q, driver)
  {
    if q == [] {
      assert p + q == p;
    } else {
      var n := |q| - 1;
      assert p + q == (p + q[..n]) + [q[n]];
      KeysAppend(p + q[..n], q[n], driver);
      KeysConcat(p, q[..n], driver);
    }
  }

  /** Splitting a queue at one device. */
  lemma {:induction false} KeysSplit(q: seq<Dev>, i: nat, driver: u32)
    requires i < |q|
    ensures var own := if q[i].driver == driver then [(q[i].id, q[i].info.mac)] else [];
      && DriverKeys(q, driver) == DriverKeys(q[..i], driver) + own + DriverKeys(q[i + 1..], driver)
      && DriverKeys(RemoveAt(q, i), driver) == DriverKeys(q[..i], driver) + DriverKeys(q[i + 1..], driver)
  {
    KeysConcat(q[..i], q[i + 1..], driver);
    assert q == (q[..i] + [q[i]]) + q[i + 1..];
    KeysConcat(q[..i] + [q[i]], q[i + 1..], driver);
    KeysAppend(q[..i], q[i], driver);
  }

  lemma {:induction false} KeyHasDevice(q: seq<Dev>, driver: u32, p: nat) returns (i: nat)
    requires p < |DriverKeys(q, driver)|
    ensures i < |q| && q[i].driver == driver && DriverKeys(q, driver)[p] == (q[i].id, q[i].info.mac)
  {
    var n := |q| - 1;
    if p < |DriverKeys(q[..n], driver)| {
      i := KeyHasDevice(q[..n], driver, p);
    } else {
      i := n;
    }
  }

  lemma {:induction false} DeviceHasKey(q: seq<Dev>, driver: u32, i: nat)
    requires i < |q| && q[i].driver == driver
    ensures (q[i].id, q[i].info.mac) in DriverKeys(q, driver)
  {
    KeysSplit(q, i, driver);
    assert DriverKeys(q, driver)[|DriverKeys(q[..i], driver)|] == (q[i].id, q[i].info.mac);
  }

  /** Replacing a device by one with the same id, driver and MAC address changes no key. */
  lemma {:induction false} KeysSame(p: seq<Dev>, q: seq<Dev>, driver: u32)
    requires |p| == |q|
    requires forall i :: 0 <= i < |p| ==> p[i].id == q[i].id && p[i].driver == q[i].driver && p[i].info == q[i].info
    ensures DriverKeys(p, driver) == DriverKeys(q, driver)
  {
    if p != [] {
      KeysSame(p[..|p| - 1], q[..|q| - 1], driver);
    }
  }

  /** The device with a given key is the only one of its id, so its place is determined. */
  lemma {:induction false} KeyPlace(q: seq<Dev>, driver: u32, before: seq<Key>, key: Key, behind: seq<Key>, i: nat)
    requires AllApart(q) && i < |q| && q[i].driver == driver && q[i].id == key.0
    requires DriverKeys(q, driver) == before + [key] + behind
    ensures DriverKeys(RemoveAt(q, i), driver) == before + behind
  {
    KeysSplit(q, i, driver);
    var a, c := DriverKeys(q[..i], driver), DriverKeys(q[i + 1..], driver);
    hide DriverKeys;
    var ks := DriverKeys(q, driver);
    assert ks == a + [(q[i].id, q[i].info.mac)] + c;
    if |a| < |before| {
      assert ks[|before|] == c[|before| - |a| - 1];
      var j := KeyHasDevice(q[i + 1..], driver, |before| - |a| - 1);
      assert false;
    } else if |a| > |before| {
      assert ks[|before|] == a[|before|];
      var j := KeyHasDevice(q[..i], driver, |before|);
      assert false;
    } else {
      assert before == ks[..|a|] && behind == ks[|a| + 1..];
    }
  }

  // ---------------------------------------------------------------- every step keeps the invariant

  /** No online device of the driver has a MAC address its own queue does not list. */
  ghost predicate Unlisted(r: Reg, driver: u32, mac: seq<u8>) {
    forall i :: 0 <= i < |r.online| ==> !(r.online[i].driver == driver && r.online[i].info.mac == mac)
  }

  predicate IsNew(r: Reg, driver: u32, mac: seq<u8>) {
    IndexOfKey(r.offline, driver, mac) == |r.offline|
  }

  lemma {:induction false} ApartPush(q: seq<Dev>, d: Dev)
    requires AllApart(q) && forall i :: 0 <= i < |q| ==> Apart(q[i], d)
    ensures AllApart(q + [d])
  {
  }

  lemma {:induction false} ApartRemove(p: seq<Dev>, q: seq<Dev>, i: nat)
    requires AllApart(q) && CrossApart(p, q) && i < |q|
    ensures AllApart(RemoveAt(q, i)) && CrossApart(p + [q[i]], RemoveAt(q, i))
  {
    var r := RemoveAt(q, i);
    forall j, k | 0 <= j < k < |r| ensures Apart(r[j], r[k]) {
      var j', k' := if j < i then j else j + 1, if k < i then k else k + 1;
      assert Apart(q[j'], q[k']);
    }
    forall j, k | 0 <= j < |p| + 1 && 0 <= k < |r| ensures Apart((p + [q[i]])[j], r[k]) {
      var k' := if k < i then k else k + 1;
      assert j < |p| ==> Apart(p[j], q[k']);
      assert i < k' ==> Apart(q[i], q[k']);
      assert k' < i ==> Apart(q[k'], q[i]);
    }
  }

  lemma {:induction false} CrossSwap(p: seq<Dev>, q: seq<Dev>)
    requires CrossApart(p, q)
    ensures CrossApart(q, p)
  {
    forall i, j | 0 <= i < |q| && 0 <= j < |p| ensures Apart(q[i], p[j]) {
      assert Apart(p[j], q[i]);
    }
  }

  lemma {:induction false} KnownLater(q: seq<Dev>, m: u32, n: u32)
    requires AllKnown(q, m) && Ceiling(m) <= Ceiling(n)
    ensures AllKnown(q, n)
  {
    forall i | 0 <= i < |q| ensures Known(q[i], n) {
      assert Known(q[i], m);
    }
  }

  lemma {:induction false} OnlineNewInv(r: Reg, d: Dev, r': Reg)
    requires RegInv(r) && d.id == r.nextId && d.workMode == WORK_MODE_ALL && 0 < r.nextId
    requires Unlisted(r, d.driver, d.info.mac) && IsNew(r, d.driver, d.info.mac)
    requires r'.online == r.online + [d] && r'.offline == r.offline
    requires r'.nextId == (r.nextId + 1) % U32 && r'.workMode == r.workMode
    ensures RegInv(r')
  {
    forall i | 0 <= i < |r.online| ensures Apart(r.online[i], d) {
      assert Known(r.online[i], r.nextId);
    }
    ApartPush(r.online, d);
    forall i, j | 0 <= i < |r'.online| && 0 <= j < |r'.offline| ensures Apart(r'.online[i], r'.offline[j]) {
      assert Known(r.offline[j], r.nextId);
      assert i < |r.online| ==> Apart(r.online[i], r.offline[j]);
    }
    KnownLater(r.online, r.nextId, r'.nextId);
    KnownLater(r.offline, r.nextId, r'.nextId);
  }

  lemma {:induction false} OnlineAgainInv(r: Reg, i: nat, r': Reg)
    requires RegInv(r) && i < |r.offline|
    requires r'.online == r.online + [r.offline[i]] && r'.offline == RemoveAt(r.offline, i)
    requires r'.nextId == r.nextId && r'.workMode == r.workMode
    ensures RegInv(r')
  {
    var d := r.offline[i];
    forall j | 0 <= j < |r.online| ensures Apart(r.online[j], d) {
    }
    ApartPush(r.online, d);
    ApartRemove(r.online, r.offline, i);
    assert Known(d, r.nextId);
  }

  /** `dev_online` keeps the registry sound although it never looks at the online queue, because
      its caller did; the one exception is a new device after the counter has wrapped. */
  lemma {:induction false} OnlineInv(r: Reg, driver: u32, info: Info)
    requires RegInv(r) && Unlisted(r, driver, info.mac)
    ensures RegInv(Online(r, driver, info)) <==> !(IsNew(r, driver, info.mac) && r.nextId == 0)
  {
    var i, r' := IndexOfKey(r.offline, driver, info.mac), Online(r, driver, info);
    if i < |r.offline| {
      OnlineAgainInv(r, i, r');
    } else if 0 < r.nextId {
      OnlineNewInv(r, NewDev(r.nextId, driver, info), r');
    } else {
      assert !Known(r'.online[|r.online|], r'.nextId);
    }
  }

  lemma {:induction false} OfflineInv(r: Reg, id: u32)
    requires RegInv(r)
    ensures RegInv(Offline(r, id))
  {
    var i, r' := IndexOf(r.online, id), Offline(r, id);
    if i < |r.online| {
      var d := r.online[i];
      forall j | 0 <= j < |r.offline| ensures Apart(r.offline[j], d) {
        assert Apart(d, r.offline[j]);
      }
      ApartPush(r.offline, d);
      CrossSwap(r.online, r.offline);
      ApartRemove(r.offline, r.online, i);
      CrossSwap(r'.offline, r'.online);
      assert Known(d, r.nextId);
    }
  }

  /** Changes that keep each device's identity and shape keep the registry sound. */
  lemma {:induction false} SameDevicesInv(r: Reg, r': Reg)
    requires RegInv(r) && r'.offline == r.offline && r'.nextId == r.nextId && r'.workMode < WORK_MODES
    requires |r'.online| == |r.online|
    requires forall i :: 0 <= i < |r.online| ==> SameDevice(r.online[i], r'.online[i])
    ensures RegInv(r')
    ensures forall driver :: DriverKeys(r'.online, driver) == DriverKeys(r.online, driver)
  {
    forall i, j | 0 <= i < j < |r'.online| ensures Apart(r'.online[i], r'.online[j]) {
      assert Apart(r.online[i], r.online[j]);
    }
    forall i, j | 0 <= i < |r'.online| && 0 <= j < |r'.offline| ensures Apart(r'.online[i], r'.offline[j]) {
      assert Apart(r.online[i], r.offline[j]);
    }
    forall i | 0 <= i < |r'.online| ensures Known(r'.online[i], r'.nextId) {
      assert Known(r.online[i], r.nextId);
    }
    forall driver ensures DriverKeys(r'.online, driver) == DriverKeys(r.online, driver) {
      KeysSame(r'.online, r.online, driver);
    }
  }

  predicate SameDevice(d: Dev, e: Dev) {
    d.id == e.id && d.driver == e.driver && d.info == e.info && d.workMode == e.workMode
  }

  /** A MAC address that the driver's queue does not list belongs to no online device of it. */
  lemma {:induction false} VsUnlisted(b: BoxState, mac: seq<u8>)
    requires QueuesAgree(b) && VsIndexOfMac(b.vs, mac) == |b.vs|
    ensures Unlisted(b.reg, VS_DRIVER, PadMac(mac))
  {
    forall i | 0 <= i < |b.reg.online| && b.reg.online[i].driver == VS_DRIVER
      ensures b.reg.online[i].info.mac != PadMac(mac)
    {
      DeviceHasKey(b.reg.online, VS_DRIVER, i);
      var p :| 0 <= p < |b.vs| && VsKeys(b.vs)[p] == (b.reg.online[i].id, b.reg.online[i].info.mac);
      PadMacInjective(b.vs[p].info.mac, mac);
    }
  }

  lemma {:induction false} PadMacInjective(a: seq<u8>, b: seq<u8>)
    ensures PadMac(a) == PadMac(b) ==> a == b
  {
    if PadMac(a) == PadMac(b) {
      assert a == PadMac(a)[..|PadMac(a)| - 2];
      assert b == PadMac(b)[..|PadMac(b)| - 2];
    }
  }

  lemma {:induction false} CzUnlisted(b: BoxState, mac: seq<u8>)
    requires QueuesAgree(b) && CzIndexOfMac(b.cz, mac) == |b.cz|
    ensures Unlisted(b.reg, CZ_DRIVER, mac)
  {
    forall i | 0 <= i < |b.reg.online| && b.reg.online[i].driver == CZ_DRIVER
      ensures b.reg.online[i].info.mac != mac
    {
      DeviceHasKey(b.reg.online, CZ_DRIVER, i);
      var p :| 0 <= p < |b.cz| && CzKeys(b.cz)[p] == (b.reg.online[i].id, b.reg.online[i].info.mac);
    }
  }

  /** The device that `dev_online` puts at the end of the queue. */
  lemma {:induction false} OnlineNewest(r: Reg, driver: u32, info: Info)
    ensures var r' := Online(r, driver, info); var d := r'.online[|r'.online| - 1];
      r'.online == r.online + [d] && d.driver == driver && d.info.mac == info.mac
  {
  }

  /** The call would hand out id 0. */
  predicate WouldWrap(r: Reg, driver: u32, mac: seq<u8>) {
    IsNew(r, driver, mac) && r.nextId == 0
  }

  lemma {:induction false} VsKeysConcat(a: seq<VsDev>, b: seq<VsDev>)
    ensures VsKeys(a + b) == VsKeys(a) + VsKeys(b)
  {
  }

  lemma {:induction false} VsKeysOne(v: VsDev)
    ensures VsKeys([v]) == [(v.id, PadMac(v.info.mac))]
  {
  }

  lemma {:induction false} VsRegisterInv(b: BoxState, ip: nat, info: VsInfo)
    requires Inv(b)
    ensures Inv(VsRegistered(b, ip, info))
       <==> VsIndexOfMac(b.vs, info.mac) < |b.vs| || !WouldWrap(b.reg, VS_DRIVER, PadMac(info.mac))
  {
    if VsIndexOfMac(b.vs, info.mac) == |b.vs| {
      var common := Info(info.cls, info.interface, PadMac(info.mac));
      VsUnlisted(b, info.mac);
      OnlineInv(b.reg, VS_DRIVER, common);
      OnlineNewest(b.reg, VS_DRIVER, common);
      var r := Online(b.reg, VS_DRIVER, common);
      var d, v := r.online[|r.online| - 1], VsDev(NewestId(r), ip, 0, info);
      KeysAppend(b.reg.online, d, VS_DRIVER);
      KeysAppend(b.reg.online, d, CZ_DRIVER);
      VsKeysConcat(b.vs, [v]);
      VsKeysOne(v);
    }
  }

  lemma {:induction false} CzKeysSnoc(a: seq<CzDev>, v: CzDev)
    ensures CzKeys(a + [v]) == CzKeys(a) + [(v.id, v.info.mac)]
  {
  }

  lemma {:induction false} CzRegisterInv(b: BoxState, shortAddr: u16, endPoint: u16, info: CzInfo)
    requires Inv(b)
    ensures Inv(CzRegistered(b, shortAddr, endPoint, info))
       <==> CzIndexOfMac(b.cz, info.mac) < |b.cz| || !WouldWrap(b.reg, CZ_DRIVER, info.mac)
  {
    if CzIndexOfMac(b.cz, info.mac) == |b.cz| {
      var common := Info(info.cls, info.interface, info.mac);
      CzUnlisted(b, info.mac);
      OnlineInv(b.reg, CZ_DRIVER, common);
      OnlineNewest(b.reg, CZ_DRIVER, common);
      var r := Online(b.reg, CZ_DRIVER, common);
      var d, v := r.online[|r.online| - 1], CzDev(NewestId(r), shortAddr, endPoint, info);
      KeysAppend(b.reg.online, d, VS_DRIVER);
      KeysAppend(b.reg.online, d, CZ_DRIVER);
      CzKeysSnoc(b.cz, v);
    }
  }

  /** With distinct ids, looking for a device's id finds that device. */
  lemma {:induction false} IndexOfApart(q: seq<Dev>, i: nat)
    requires AllApart(q) && i < |q|
    ensures IndexOf(q, q[i].id) == i
  {
  }

  /** Taking one listed device of the virtual switch driver offline: the call finds it, and the
      queues agree again once the driver has dropped its entry too. */
  lemma {:induction false} DropInv(r: Reg, before: seq<VsDev>, v: VsDev, behind: seq<VsDev>)
    requires RegInv(r) && VsKeys(before + [v] + behind) == DriverKeys(r.online, VS_DRIVER)
    ensures IndexOf(r.online, v.id) < |r.online| && RegInv(Offline(r, v.id))
    ensures VsKeys(before + behind) == DriverKeys(Offline(r, v.id).online, VS_DRIVER)
    ensures DriverKeys(Offline(r, v.id).online, CZ_DRIVER) == DriverKeys(r.online, CZ_DRIVER)
    ensures Offline(r, v.id).nextId == r.nextId
  {
    OfflineInv(r, v.id);
    hide RegInv, DriverKeys, VsKeys, Offline;
    VsKeysAround(before, v, behind);
    var i := DropKey(r.online, VsKeys(before), (v.id, PadMac(v.info.mac)), VsKeys(behind));
    OfflineQueue(r, v.id);
  }

  /** The device that a key of the virtual switch driver stands for, and the keys without it. */
  lemma {:induction false} DropKey(q: seq<Dev>, before: seq<Key>, key: Key, behind: seq<Key>) returns (i: nat)
    requires AllApart(q) && DriverKeys(q, VS_DRIVER) == before + [key] + behind
    ensures i < |q| && IndexOf(q, key.0) == i
    ensures DriverKeys(RemoveAt(q, i), VS_DRIVER) == before + behind
    ensures DriverKeys(RemoveAt(q, i), CZ_DRIVER) == DriverKeys(q, CZ_DRIVER)
  {
    hide AllApart, DriverKeys;
    assert (before + [key] + behind)[|before|] == key;
    i := KeyHasDevice(q, VS_DRIVER, |before|);
    IndexOfApart(q, i);
    KeyPlace(q, VS_DRIVER, before, key, behind, i);
    KeysSplit(q, i, CZ_DRIVER);
  }

  lemma {:induction false} VsKeysAround(before: seq<VsDev>, v: VsDev, behind: seq<VsDev>)
    ensures VsKeys(before + [v] + behind) == VsKeys(before) + [(v.id, PadMac(v.info.mac))] + VsKeys(behind)
    ensures VsKeys(before + behind) == VsKeys(before) + VsKeys(behind)
  {
    VsKeysConcat(before + [v], behind);
    VsKeysConcat(before, [v]);
    VsKeysConcat(before, behind);
    VsKeysOne(v);
  }

  lemma {:induction false} OfflineQueue(r: Reg, id: u32)
    requires IndexOf(r.online, id) < |r.online|
    ensures Offline(r, id).online == RemoveAt(r.online, IndexOf(r.online, id)) && Offline(r, id).nextId == r.nextId
  {
  }

  /** The whole timeout sweep, with `before` already handled. */
  lemma {:induction false} SweepInv(r: Reg, before: seq<VsDev>, rest: seq<VsDev>)
    requires RegInv(r) && VsKeys(before + rest) == DriverKeys(r.online, VS_DRIVER)
    ensures var r', vs' := SweptReg(r, rest), before + SweptVs(rest);
      && RegInv(r') && VsKeys(vs') == DriverKeys(r'.online, VS_DRIVER)
      && DriverKeys(r'.online, CZ_DRIVER) == DriverKeys(r.online, CZ_DRIVER)
      && r'.nextId == r.nextId
    decreases |rest|
  {
    hide Offline, DriverKeys, VsKeys, RegInv;
    if rest == [] {
      assert before + SweptVs(rest) == before + rest;
    } else {
      var v, tail := rest[0], rest[1..];
      assert before + rest == before + [v] + tail;
      if v.idle > MAX_IDLE {
        DropInv(r, before, v, tail);
        SweepInv(Offline(r, v.id), before, tail);
      } else {
        var w := v.(idle := v.idle + 1);
        OlderKeys(before, v, w, tail);
        SweepInv(r, before + [w], tail);
        assert before + SweptVs(rest) == before + [w] + SweptVs(tail);
      }
    }
  }

  lemma {:induction false} OlderKeys(before: seq<VsDev>, v: VsDev, w: VsDev, behind: seq<VsDev>)
    requires v.id == w.id && v.info == w.info
    ensures VsKeys(before + [v] + behind) == VsKeys(before + [w] + behind)
  {
  }

  lemma {:induction false} SweepIdle(vs: seq<VsDev>)
    ensures IdleBounded(SweptVs(vs))
  {
    if vs != [] {
      SweepIdle(vs[1..]);
    }
  }
}
