/** The box as a state machine: every call into the registry, the drivers and the rules is one
    step, and the theorems here are about every run. */
module BoxRuns {
  import opened Device
  import opened Registry
  import opened Box

  datatype Step =
    | VsRegister(ip: nat, vsInfo: VsInfo)
    | CzRegister(shortAddr: u16, endPoint: u16, czInfo: CzInfo)
    | VsRefresh(ip: nat)
    | VsSweep
    | SetRecord(id: u32, v: Record)
    | DeleteRecord(id: u32, kind: SlotKind, k: u16)
    | Tick(clocks: seq<Clock>)
    | Raise(evt: Event)
    | SetMode(mode: int)

  /** A tick brings one clock reading for each online device. */
  predicate Enabled(b: BoxState, s: Step) {
    s.Tick? ==> |s.clocks| == |b.reg.online|
  }

  function Apply(b: BoxState, s: Step): BoxState
    requires Enabled(b, s)
  {
    match s
    case VsRegister(ip, info) => VsRegistered(b, ip, info)
    case CzRegister(addr, ep, info) => CzRegistered(b, addr, ep, info)
    case VsRefresh(ip) => b.(vs := VsRefreshed(b.vs, ip))
    case VsSweep => b.(reg := SweptReg(b.reg, b.vs), vs := SweptVs(b.vs))
    case SetRecord(id, v) => b.(reg := SlotSet(b.reg, id, v).0)
    case DeleteRecord(id, kind, k) => b.(reg := SlotDeleted(b.reg, id, kind, k).0)
    case Tick(clocks) => b.(reg := Swept(b.reg, clocks))
    case Raise(evt) => b.(reg := Notify(b.reg, evt))
    case SetMode(mode) => b.(reg := ModeSet(b.reg, mode))
  }

  ghost predicate ValidRun(b: BoxState, steps: seq<Step>)
    decreases |steps|
  {
    steps == [] || (Enabled(b, steps[0]) && ValidRun(Apply(b, steps[0]), steps[1..]))
  }

  ghost function Run(b: BoxState, steps: seq<Step>): BoxState
    requires ValidRun(b, steps)
    decreases |steps|
  {
    if steps == [] then b else Run(Apply(b, steps[0]), steps[1..])
  }

  // ---------------------------------------------------------------- the invariant along every run

  /** The step hands out a new id. */
  predicate Allocates(b: BoxState, s: Step) {
    match s
    case VsRegister(_, info) =>
      VsIndexOfMac(b.vs, info.mac) == |b.vs| && IsNew(b.reg, VS_DRIVER, PadMac(info.mac))
    case CzRegister(_, _, info) =>
      CzIndexOfMac(b.cz, info.mac) == |b.cz| && IsNew(b.reg, CZ_DRIVER, info.mac)
    case _ => false
  }

  ghost function Allocations(b: BoxState, steps: seq<Step>): nat
    requires ValidRun(b, steps)
    decreases |steps|
  {
    if steps == [] then 0
    else (if Allocates(b, steps[0]) then 1 else 0) + Allocations(Apply(b, steps[0]), steps[1..])
  }

  lemma {:induction false} RefreshInv(b: BoxState, ip: nat)
    requires Inv(b)
    ensures Inv(b.(vs := VsRefreshed(b.vs, ip)))
  {
    assert VsKeys(VsRefreshed(b.vs, ip)) == VsKeys(b.vs);
  }

  lemma {:induction false} SweepStepInv(b: BoxState)
    requires Inv(b)
    ensures Inv(Apply(b, VsSweep))
  {
    SweepIdle(b.vs);
    hide RegInv, DriverKeys, VsKeys, CzKeys, SweptVs, SweptReg, IdleBounded;
    assert [] + b.vs == b.vs && [] + SweptVs(b.vs) == SweptVs(b.vs);
    SweepInv(b.reg, [], b.vs);
  }

  lemma {:induction false} SameDevicesBox(b: BoxState, r': Reg)
    requires Inv(b) && r'.offline == b.reg.offline && r'.nextId == b.reg.nextId && r'.workMode < WORK_MODES
    requires |r'.online| == |b.reg.online|
    requires forall i :: 0 <= i < |r'.online| ==> SameDevice(b.reg.online[i], r'.online[i])
    ensures Inv(b.(reg := r'))
  {
    SameDevicesInv(b.reg, r');
    assert DriverKeys(r'.online, VS_DRIVER) == DriverKeys(b.reg.online, VS_DRIVER);
    assert DriverKeys(r'.online, CZ_DRIVER) == DriverKeys(b.reg.online, CZ_DRIVER);
  }

  lemma {:induction false} SetStepInv(b: BoxState, id: u32, v: Record)
    requires Inv(b)
    ensures Inv(Apply(b, SetRecord(id, v)))
  {
    hide Inv;
    InvMode(b);
    SameDevicesBox(b, SlotSet(b.reg, id, v).0);
  }

  lemma {:induction false} DeleteStepInv(b: BoxState, id: u32, kind: SlotKind, k: u16)
    requires Inv(b)
    ensures Inv(Apply(b, DeleteRecord(id, kind, k)))
  {
    hide Inv;
    InvMode(b);
    SameDevicesBox(b, SlotDeleted(b.reg, id, kind, k).0);
  }

  lemma {:induction false} TickStepInv(b: BoxState, clocks: seq<Clock>)
    requires Inv(b) && |clocks| == |b.reg.online|
    ensures Inv(Apply(b, Tick(clocks)))
  {
    hide Inv, Ticked, SweepCommands;
    InvMode(b);
    forall i | 0 <= i < |clocks| ensures SameDevice(b.reg.online[i], TickedQueue(b.reg, clocks)[i]) {
      TickedSame(b.reg.online[i], b.reg.workMode, PrevSec(b.reg.secToday, clocks, i), clocks[i]);
    }
    SameDevicesBox(b, Swept(b.reg, clocks));
  }

  lemma {:induction false} RaiseStepInv(b: BoxState, evt: Event)
    requires Inv(b)
    ensures Inv(Apply(b, Raise(evt)))
  {
    hide Inv, LinkageCommands;
    InvMode(b);
    SameDevicesBox(b, Notify(b.reg, evt));
  }

  lemma {:induction false} ModeStepInv(b: BoxState, mode: int)
    requires Inv(b)
    ensures Inv(Apply(b, SetMode(mode)))
  {
    hide Inv, LinkageCommands;
    InvMode(b);
    SameDevicesBox(b, ModeSet(b.reg, mode));
  }

  lemma {:induction false} TickedSame(d: Dev, mode: nat, prevSec: nat, c: Clock)
    ensures SameDevice(d, Ticked(d, mode, prevSec, c))
  {
  }

  lemma {:induction false} InvMode(b: BoxState)
    requires Inv(b)
    ensures b.reg.workMode < WORK_MODES
  {
  }

  /** A step keeps the invariant exactly unless it hands out id 0, after the counter has wrapped. */
  lemma {:induction false} StepInv(b: BoxState, s: Step)
    requires Inv(b) && Enabled(b, s)
    ensures Inv(Apply(b, s)) <==> !(Allocates(b, s) && b.reg.nextId == 0)
  {
    hide Inv;
    match s
    case VsRegister(ip, info) => VsRegisterInv(b, ip, info);
    case CzRegister(addr, ep, info) => CzRegisterInv(b, addr, ep, info);
    case VsRefresh(ip) => RefreshInv(b, ip);
    case VsSweep => SweepStepInv(b);
    case SetRecord(id, v) => SetStepInv(b, id, v);
    case DeleteRecord(id, kind, k) => DeleteStepInv(b, id, kind, k);
    case Tick(clocks) => TickStepInv(b, clocks);
    case Raise(evt) => RaiseStepInv(b, evt);
    case SetMode(mode) => ModeStepInv(b, mode);
  }

  lemma {:induction false} StepNextId(b: BoxState, s: Step)
    requires Inv(b) && Enabled(b, s)
    ensures Apply(b, s).reg.nextId == (if Allocates(b, s) then (b.reg.nextId + 1) % U32 else b.reg.nextId)
  {
    hide LinkageCommands, DriverKeys;
    match s
    case VsSweep =>
      assert [] + b.vs == b.vs;
      SweepInv(b.reg, [], b.vs);
    case VsRegister(_, info) =>
      OnlineNextId(b.reg, VS_DRIVER, Info(info.cls, info.interface, PadMac(info.mac)));
    case CzRegister(_, _, info) =>
      OnlineNextId(b.reg, CZ_DRIVER, Info(info.cls, info.interface, info.mac));
    case _ =>
  }

  lemma {:induction false} OnlineNextId(r: Reg, driver: u32, info: Info)
    ensures Online(r, driver, info).nextId
         == (if IsNew(r, driver, info.mac) then (r.nextId + 1) % U32 else r.nextId)
  {
  }

  /** Along every run, until id 0 is handed out, ids are distinct, nonzero and below the counter,
      no driver and MAC address occurs twice, the driver queues mirror the online queue, the work
      mode is valid and no idle count exceeds its bound. */
  lemma {:induction false} RunInv(b: BoxState, steps: seq<Step>)
    requires Inv(b) && ValidRun(b, steps) && Ceiling(b.reg.nextId) + Allocations(b, steps) <= U32
    ensures Inv(Run(b, steps)) && Ceiling(Run(b, steps).reg.nextId) == Ceiling(b.reg.nextId) + Allocations(b, steps)
    decreases |steps|
  {
    hide Apply;
    if steps != [] {
      StepInv(b, steps[0]);
      StepNextId(b, steps[0]);
      RunInv(Apply(b, steps[0]), steps[1..]);
    }
  }

  lemma {:induction false} StartInv()
    ensures Inv(INITIAL_BOX)
  {
  }

  /** The same, from start-up: at most 2^32 - 1 devices may ever be created. */
  lemma {:induction false} BoxInv(steps: seq<Step>)
    requires ValidRun(INITIAL_BOX, steps) && Allocations(INITIAL_BOX, steps) < U32
    ensures Inv(Run(INITIAL_BOX, steps))
  {
    RunInv(INITIAL_BOX, steps);
  }
}
