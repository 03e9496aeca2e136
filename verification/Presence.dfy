/** Coming, going and coming back: what a device keeps while it is offline, and when a silent
    device is dropped. */
module Presence {
  import opened Device
  import opened Registry
  import opened Box
  import opened BoxRuns

  /** The step announces the device: same driver, same MAC address. */
  predicate Announces(s: Step, d: Dev) {
    match s
    case VsRegister(_, info) => d.driver == VS_DRIVER && d.info.mac == PadMac(info.mac)
    case CzRegister(_, _, info) => d.driver == CZ_DRIVER && d.info.mac == info.mac
    case _ => false
  }

  // ---------------------------------------------------------------- offline devices are frozen

  lemma {:induction false} OnlineKeepsOthers(r: Reg, driver: u32, info: Info, d: Dev)
    requires d in r.offline && !(d.driver == driver && d.info.mac == info.mac)
    ensures d in Online(r, driver, info).offline
  {
    var i := IndexOfKey(r.offline, driver, info.mac);
    var j :| 0 <= j < |r.offline| && r.offline[j] == d;
    if i < |r.offline| {
      var q := RemoveAt(r.offline, i);
      assert q[if j < i then j else j - 1] == d;
    }
  }

  lemma {:induction false} OfflineKeeps(r: Reg, id: u32, d: Dev)
    ensures d in r.offline ==> d in Offline(r, id).offline
    ensures d in r.online ==> d in Offline(r, id).online || d in Offline(r, id).offline
  {
    var i := IndexOf(r.online, id);
    if i < |r.online| && d in r.online {
      var j :| 0 <= j < |r.online| && r.online[j] == d;
      var q := RemoveAt(r.online, i);
      if j != i {
        assert q[if j < i then j else j - 1] == d;
      } else {
        assert (r.offline + [d])[|r.offline|] == d;
      }
    }
  }

  lemma {:induction false} SweepKeeps(r: Reg, vs: seq<VsDev>, d: Dev)
    ensures d in r.offline ==> d in SweptReg(r, vs).offline
    decreases |vs|
  {
    if vs != [] {
      OfflineKeeps(r, vs[0].id, d);
      SweepKeeps(if vs[0].idle > MAX_IDLE then Offline(r, vs[0].id) else r, vs[1..], d);
    }
  }

  /** A step that does not announce an offline device leaves its record as it is: settings,
      deletions, ticks and events only reach online devices. */
  lemma {:induction false} StepKeepsOffline(b: BoxState, s: Step, d: Dev)
    requires Enabled(b, s) && d in b.reg.offline && !Announces(s, d)
    ensures d in Apply(b, s).reg.offline
  {
    match s
    case VsRegister(ip, info) =>
      OnlineKeepsOthers(b.reg, VS_DRIVER, Info(info.cls, info.interface, PadMac(info.mac)), d);
    case CzRegister(addr, ep, info) =>
      OnlineKeepsOthers(b.reg, CZ_DRIVER, Info(info.cls, info.interface, info.mac), d);
    case VsSweep => SweepKeeps(b.reg, b.vs, d);
    case _ =>
  }

  lemma {:induction false} RunKeepsOffline(b: BoxState, steps: seq<Step>, d: Dev)
    requires ValidRun(b, steps) && d in b.reg.offline
    requires forall i :: 0 <= i < |steps| ==> !Announces(steps[i], d)
    ensures d in Run(b, steps).reg.offline
    decreases |steps|
  {
    hide Apply;
    if steps != [] {
      StepKeepsOffline(b, steps[0], d);
      RunKeepsOffline(Apply(b, steps[0]), steps[1..], d);
    }
  }

  lemma {:induction false} IndexOfKeyApart(q: seq<Dev>, i: nat)
    requires AllApart(q) && i < |q|
    ensures IndexOfKey(q, q[i].driver, q[i].info.mac) == i
  {
  }

  lemma {:induction false} OnlineReturns(r: Reg, driver: u32, info: Info, d: Dev)
    requires RegInv(r) && d in r.offline && d.driver == driver && d.info.mac == info.mac
    ensures Online(r, driver, info).online == r.online + [d]
  {
    hide LinkageCommands;
    var j :| 0 <= j < |r.offline| && r.offline[j] == d;
    IndexOfKeyApart(r.offline, j);
  }

  /** An offline device is not listed by its driver. */
  lemma {:induction false} OfflineUnlisted(b: BoxState, d: Dev)
    requires Inv(b) && d in b.reg.offline
    ensures d.driver == VS_DRIVER ==> forall i :: 0 <= i < |b.vs| ==> PadMac(b.vs[i].info.mac) != d.info.mac
    ensures d.driver == CZ_DRIVER ==> forall i :: 0 <= i < |b.cz| ==> b.cz[i].info.mac != d.info.mac
  {
    var j :| 0 <= j < |b.reg.offline| && b.reg.offline[j] == d;
    if d.driver == VS_DRIVER {
      forall i | 0 <= i < |b.vs| ensures PadMac(b.vs[i].info.mac) != d.info.mac {
        assert VsKeys(b.vs)[i] == (b.vs[i].id, PadMac(b.vs[i].info.mac));
        var k := KeyHasDevice(b.reg.online, VS_DRIVER, i);
        assert Apart(b.reg.online[k], b.reg.offline[j]);
      }
    }
    if d.driver == CZ_DRIVER {
      forall i | 0 <= i < |b.cz| ensures b.cz[i].info.mac != d.info.mac {
        assert CzKeys(b.cz)[i] == (b.cz[i].id, b.cz[i].info.mac);
        var k := KeyHasDevice(b.reg.online, CZ_DRIVER, i);
        assert Apart(b.reg.online[k], b.reg.offline[j]);
      }
    }
  }

  /** The step that announces an offline device brings back its record, at the end of the online
      queue, and tells its driver its old id. */
  lemma {:induction false} StepReturns(b: BoxState, s: Step, d: Dev)
    requires Inv(b) && d in b.reg.offline && Announces(s, d)
    ensures Apply(b, s).reg.online == b.reg.online + [d]
    ensures s.VsRegister? ==> |Apply(b, s).vs| == |b.vs| + 1 && Apply(b, s).vs[|b.vs|].id == d.id
    ensures s.CzRegister? ==> |Apply(b, s).cz| == |b.cz| + 1 && Apply(b, s).cz[|b.cz|].id == d.id
  {
    OfflineUnlisted(b, d);
    match s
    case VsRegister(ip, info) =>
      OnlineReturns(b.reg, VS_DRIVER, Info(info.cls, info.interface, PadMac(info.mac)), d);
    case CzRegister(addr, ep, info) =>
      OnlineReturns(b.reg, CZ_DRIVER, Info(info.cls, info.interface, info.mac), d);
  }

  /** A device that goes offline and comes back has the id, the timers with their expired flags,
      the delays and the linkages it left with, whatever happened in between. */
  lemma {:induction false} ReturnsAsItWas(b: BoxState, steps: seq<Step>, d: Dev, s: Step)
    requires Inv(b) && ValidRun(b, steps) && Ceiling(b.reg.nextId) + Allocations(b, steps) <= U32
    requires d in b.reg.offline && forall i :: 0 <= i < |steps| ==> !Announces(steps[i], d)
    requires Announces(s, d)
    ensures var e := Run(b, steps);
      && Apply(e, s).reg.online == e.reg.online + [d]
      && (s.VsRegister? ==> |Apply(e, s).vs| == |e.vs| + 1 && Apply(e, s).vs[|e.vs|].id == d.id)
      && (s.CzRegister? ==> |Apply(e, s).cz| == |e.cz| + 1 && Apply(e, s).cz[|e.cz|].id == d.id)
  {
    hide Apply;
    RunInv(b, steps);
    RunKeepsOffline(b, steps, d);
    StepReturns(Run(b, steps), s, d);
  }

  // ---------------------------------------------------------------- silent devices

  ghost function Sweeps(steps: seq<Step>): nat {
    if steps == [] then 0 else (if steps[0].VsSweep? then 1 else 0) + Sweeps(steps[1..])
  }

  lemma {:induction false} SweepAges(vs: seq<VsDev>, v: VsDev)
    requires v in vs && v.idle <= MAX_IDLE
    ensures v.(idle := v.idle + 1) in SweptVs(vs)
  {
    if vs[0] == v {
      assert SweptVs(vs)[0] == v.(idle := v.idle + 1);
    } else {
      SweepAges(vs[1..], v);
      var t := SweptVs(vs[1..]);
      var j :| 0 <= j < |t| && t[j] == v.(idle := v.idle + 1);
      assert vs[0].idle <= MAX_IDLE ==> SweptVs(vs)[j + 1] == t[j];
    }
  }

  /** `kept` names, in order, the entries a sweep keeps. */
  ghost predicate Keeps(vs: seq<VsDev>, kept: seq<nat>) {
    && (forall i :: 0 <= i < |kept| ==> kept[i] < |vs| && vs[kept[i]].idle <= MAX_IDLE)
    && (forall i, j :: 0 <= i < j < |kept| ==> kept[i] < kept[j])
    && (forall k :: 0 <= k < |vs| && vs[k].idle <= MAX_IDLE ==> k in kept)
  }

  function Kept(vs: seq<VsDev>, n: nat): (kept: seq<nat>)
    requires n <= |vs|
    ensures forall i :: 0 <= i < |kept| ==> kept[i] < n
  {
    if n == 0 then [] else Kept(vs, n - 1) + (if vs[n - 1].idle <= MAX_IDLE then [n - 1] else [])
  }

  lemma {:induction false} KeptKeeps(vs: seq<VsDev>, n: nat)
    requires n <= |vs|
    ensures Keeps(vs[..n], Kept(vs, n))
  {
    if n > 0 {
      hide Keeps, Kept;
      KeptKeeps(vs, n - 1);
      KeptSnoc(vs, n - 1);
      assert vs[..n] == vs[..n - 1] + [vs[n - 1]];
      if vs[n - 1].idle <= MAX_IDLE {
        KeepsOneMore(vs[..n - 1], Kept(vs, n - 1), vs[n - 1]);
      } else {
        KeepsNoMore(vs[..n - 1], Kept(vs, n - 1), vs[n - 1]);
      }
    }
  }

  lemma {:induction false} KeepsNoMore(vs: seq<VsDev>, kept: seq<nat>, v: VsDev)
    requires Keeps(vs, kept) && v.idle > MAX_IDLE
    ensures Keeps(vs + [v], kept)
  {
    var ws := vs + [v];
    forall k | 0 <= k < |ws| && ws[k].idle <= MAX_IDLE ensures k in kept {
      assert ws[k] == vs[k];
    }
  }

  lemma {:induction false} KeepsOneMore(vs: seq<VsDev>, kept: seq<nat>, v: VsDev)
    requires Keeps(vs, kept) && v.idle <= MAX_IDLE
    ensures Keeps(vs + [v], kept + [|vs|])
  {
    var ws, ks := vs + [v], kept + [|vs|];
    forall k | 0 <= k < |ws| && ws[k].idle <= MAX_IDLE ensures k in ks {
      assert ks[|kept|] == |vs|;
      assert k < |vs| ==> ws[k] == vs[k] && k in kept;
    }
  }

  lemma {:induction false} SweepSnoc(vs: seq<VsDev>, v: VsDev)
    ensures SweptVs(vs + [v])
         == SweptVs(vs) + (if v.idle > MAX_IDLE then [] else [v.(idle := v.idle + 1)])
  {
    if vs != [] {
      assert (vs + [v])[1..] == vs[1..] + [v];
      SweepSnoc(vs[1..], v);
    }
  }

  /** The entries that a sweep of `vs` leaves of those at `kept`. */
  function Aged(vs: seq<VsDev>, kept: seq<nat>): (ws: seq<VsDev>)
    requires forall i :: 0 <= i < |kept| ==> kept[i] < |vs|
    ensures |ws| == |kept|
  {
    seq(|kept|, i requires 0 <= i < |kept| => vs[kept[i]].(idle := vs[kept[i]].idle + 1))
  }

  lemma {:induction false} KeptSnoc(vs: seq<VsDev>, n: nat)
    requires n < |vs|
    ensures Kept(vs, n + 1) == if vs[n].idle <= MAX_IDLE then Kept(vs, n) + [n] else Kept(vs, n)
  {
  }

  lemma {:induction false} AgedSnoc(vs: seq<VsDev>, kept: seq<nat>, k: nat)
    requires k < |vs| && forall i :: 0 <= i < |kept| ==> kept[i] < |vs|
    ensures Aged(vs, kept + [k]) == Aged(vs, kept) + [vs[k].(idle := vs[k].idle + 1)]
  {
  }

  lemma {:induction false} SweepPrefix(vs: seq<VsDev>, n: nat)
    requires n <= |vs|
    ensures SweptVs(vs[..n]) == Aged(vs, Kept(vs, n))
  {
    if n == 0 {
      assert vs[..0] == [];
    } else {
      hide SweptVs, Kept, Aged;
      SweepPrefix(vs, n - 1);
      var v, kept := vs[n - 1], Kept(vs, n - 1);
      assert vs[..n] == vs[..n - 1] + [v];
      SweepSnoc(vs[..n - 1], v);
      KeptSnoc(vs, n - 1);
      if v.idle <= MAX_IDLE {
        AgedSnoc(vs, kept, n - 1);
      } else {
        assert SweptVs(vs[..n - 1]) + [] == SweptVs(vs[..n - 1]);
      }
    }
  }

  /** The sweep is "drop the silent ones, age the others, keep the order". */
  lemma {:induction false} SweepIsFilter(vs: seq<VsDev>)
    ensures Keeps(vs, Kept(vs, |vs|)) && SweptVs(vs) == Aged(vs, Kept(vs, |vs|))
  {
    SweepPrefix(vs, |vs|);
    KeptKeeps(vs, |vs|);
    assert vs[..|vs|] == vs;
  }

  lemma {:induction false} StepAges(b: BoxState, s: Step, v: VsDev)
    requires Enabled(b, s) && v in b.vs && s != VsRefresh(v.ip) && (s.VsSweep? ==> v.idle <= MAX_IDLE)
    ensures (if s.VsSweep? then v.(idle := v.idle + 1) else v) in Apply(b, s).vs
  {
    if s.VsSweep? {
      SweepAges(b.vs, v);
    } else if s.VsRefresh? {
      var i := VsIndexOfIp(b.vs, s.ip);
      var j :| 0 <= j < |b.vs| && b.vs[j] == v;
      assert VsRefreshed(b.vs, s.ip)[j] == v;
    }
  }

  ghost predicate NoMessage(steps: seq<Step>, ip: nat) {
    forall i :: 0 <= i < |steps| ==> steps[i] != VsRefresh(ip)
  }

  lemma {:induction false} NoMessageTail(steps: seq<Step>, ip: nat)
    requires steps != [] && NoMessage(steps, ip)
    ensures steps[0] != VsRefresh(ip) && NoMessage(steps[1..], ip)
  {
  }

  lemma {:induction false} RunFirst(b: BoxState, steps: seq<Step>)
    requires steps != [] && ValidRun(b, steps)
    ensures Enabled(b, steps[0]) && ValidRun(Apply(b, steps[0]), steps[1..])
    ensures Run(b, steps) == Run(Apply(b, steps[0]), steps[1..])
  {
  }

  /** Without a message from it, a device stays listed for as many sweeps as its idle count
      allows, whatever else happens. */
  lemma {:induction false} SilentStays(b: BoxState, steps: seq<Step>, v: VsDev)
    requires ValidRun(b, steps) && v in b.vs && v.idle + Sweeps(steps) <= MAX_IDLE + 1
    requires NoMessage(steps, v.ip)
    ensures v.(idle := v.idle + Sweeps(steps)) in Run(b, steps).vs
    decreases |steps|
  {
    hide Apply;
    if steps == [] {
      assert v.(idle := v.idle + Sweeps(steps)) == v;
    } else {
      NoMessageTail(steps, v.ip);
      RunFirst(b, steps);
      StepAges(b, steps[0], v);
      var w := if steps[0].VsSweep? then v.(idle := v.idle + 1) else v;
      SilentStays(Apply(b, steps[0]), steps[1..], w);
      assert w.(idle := w.idle + Sweeps(steps[1..])) == v.(idle := v.idle + Sweeps(steps));
    }
  }

  lemma {:induction false} SweepDrops(vs: seq<VsDev>, id: u32)
    requires forall i :: 0 <= i < |vs| && vs[i].id == id ==> vs[i].idle > MAX_IDLE
    ensures forall i :: 0 <= i < |SweptVs(vs)| ==> SweptVs(vs)[i].id != id
  {
    if vs != [] {
      SweepDrops(vs[1..], id);
    }
  }

  /** Ids in a driver queue are distinct. */
  lemma {:induction false} VsIdsDistinct(b: BoxState, i: nat, j: nat)
    requires Inv(b) && i < j < |b.vs|
    ensures b.vs[i].id != b.vs[j].id
  {
    assert VsKeys(b.vs)[i].0 == b.vs[i].id && VsKeys(b.vs)[j].0 == b.vs[j].id;
    KeyIdsDistinct(b.reg.online, VS_DRIVER, i, j);
  }

  lemma {:induction false} KeyIdsDistinct(q: seq<Dev>, driver: u32, i: nat, j: nat)
    requires AllApart(q) && i < j < |DriverKeys(q, driver)|
    ensures DriverKeys(q, driver)[i].0 != DriverKeys(q, driver)[j].0
  {
    var n := |q| - 1;
    if j < |DriverKeys(q[..n], driver)| {
      KeyIdsDistinct(q[..n], driver, i, j);
    } else {
      var k := KeyHasDevice(q[..n], driver, i);
      assert Apart(q[k], q[n]);
    }
  }

  lemma {:induction false} SweepOffline(r: Reg, before: seq<VsDev>, vs: seq<VsDev>, k: nat, d: Dev)
    requires RegInv(r) && VsKeys(before + vs) == DriverKeys(r.online, VS_DRIVER)
    requires k < |vs| && vs[k].idle > MAX_IDLE && d in r.online && d.id == vs[k].id
    ensures d in SweptReg(r, vs).offline
    decreases |vs|
  {
    hide DriverKeys, VsKeys, LinkageCommands;
    var v, tail := vs[0], vs[1..];
    assert before + vs == before + [v] + tail;
    var j :| 0 <= j < |r.online| && r.online[j] == d;
    IndexOfApart(r.online, j);
    if v.idle > MAX_IDLE {
      DropInv(r, before, v, tail);
      OfflineKeeps(r, v.id, d);
      var r' := Offline(r, v.id);
      if d in r'.offline {
        SweepKeeps(r', tail, d);
      } else {
        assert k > 0 && tail[k - 1] == vs[k];
        SweepOffline(r', before, tail, k - 1, d);
      }
    } else {
      OlderKeys(before, v, v, tail);
      assert before + [v] + tail == (before + [v]) + tail;
      SweepOffline(r, before + [v], tail, k - 1, d);
    }
  }

  /** If one entry of a device is silent, all are: there is only one. */
  lemma {:induction false} AllSilent(b: BoxState, v: VsDev)
    requires Inv(b) && v in b.vs && v.idle > MAX_IDLE
    ensures forall i :: 0 <= i < |b.vs| && b.vs[i].id == v.id ==> b.vs[i].idle > MAX_IDLE
  {
    hide Inv;
    var k :| 0 <= k < |b.vs| && b.vs[k] == v;
    forall i | 0 <= i < |b.vs| && b.vs[i].id == v.id ensures b.vs[i].idle > MAX_IDLE {
      if i < k {
        VsIdsDistinct(b, i, k);
      } else if k < i {
        VsIdsDistinct(b, k, i);
      }
    }
  }

  /** A sweep drops a silent device from its driver's queue and moves its record to the offline
      queue unchanged. */
  lemma {:induction false} DropSilent(b: BoxState, v: VsDev, d: Dev)
    requires Inv(b) && v in b.vs && v.idle > MAX_IDLE && d in b.reg.online && d.id == v.id
    ensures forall i :: 0 <= i < |SweptVs(b.vs)| ==> SweptVs(b.vs)[i].id != v.id
    ensures d in SweptReg(b.reg, b.vs).offline
  {
    hide SweptVs, SweptReg, DriverKeys, VsKeys, RegInv, IdleBounded;
    var k :| 0 <= k < |b.vs| && b.vs[k] == v;
    AllSilent(b, v);
    SweepDrops(b.vs, v.id);
    assert [] + b.vs == b.vs;
    SweepOffline(b.reg, [], b.vs, k, d);
  }

  /** A device that has been silent for eleven sweeps is still listed; the twelfth drops it. */
  lemma {:induction false} TwelfthSweep(b: BoxState, steps: seq<Step>, v: VsDev, d: Dev)
    requires Inv(b) && ValidRun(b, steps) && Ceiling(b.reg.nextId) + Allocations(b, steps) <= U32
    requires v in b.vs && v.idle == 0 && Sweeps(steps) == 11 && NoMessage(steps, v.ip)
    requires d in Run(b, steps).reg.online && d.id == v.id
    ensures var e := Run(b, steps); var e' := Apply(e, VsSweep);
      && v.(idle := 11) in e.vs
      && (forall i :: 0 <= i < |e'.vs| ==> e'.vs[i].id != v.id)
      && d in e'.reg.offline
  {
    hide Inv, SweptVs, SweptReg, Run, Sweeps, NoMessage, Allocations;
    RunInv(b, steps);
    SilentStays(b, steps, v);
    DropSilent(Run(b, steps), v.(idle := 11), d);
  }
}
