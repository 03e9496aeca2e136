/** The id counter of `core_daemon/device.c` wraps: the registry is sound along a run exactly as long
    as nobody is created after that, and what happens then. */
module IdWrap {
  import opened Device
  import opened Registry
  import opened Wire
  import opened Box
  import opened BoxRuns
  import opened Timers

  /** The id of the box itself. */
  const BOX_ID: u32 := 0

  // ---------------------------------------------------------------- devices are never forgotten

  ghost predicate Listed(q: seq<Dev>, id: u32) {
    exists i :: 0 <= i < |q| && q[i].id == id
  }

  /** Some device, online or offline, has this id. */
  ghost predicate Present(r: Reg, id: u32) {
    Listed(r.online, id) || Listed(r.offline, id)
  }

  lemma {:induction false} ListedAmong(p: seq<Dev>, q: seq<Dev>, d: Dev, id: u32)
    requires Listed(q, id) && (forall i :: 0 <= i < |q| ==> q[i] == d || q[i] in p)
    ensures Listed(p, id) || d.id == id
  {
    var i :| 0 <= i < |q| && q[i].id == id;
    if q[i] in p {
      var j :| 0 <= j < |p| && p[j] == q[i];
    }
  }

  lemma {:induction false} RemovedRest<T>(q: seq<T>, i: nat)
    requires i < |q|
    ensures forall j :: 0 <= j < |q| ==> q[j] == q[i] || q[j] in RemoveAt(q, i)
  {
    forall j | 0 <= j < |q| && j != i ensures q[j] in RemoveAt(q, i) {
      assert RemoveAt(q, i)[if j < i then j else j - 1] == q[j];
    }
  }

  /** Moving a device from one queue to the other loses no id. */
  lemma {:induction false} MovePresent(p: seq<Dev>, q: seq<Dev>, i: nat, id: u32)
    requires i < |p| && (Listed(p, id) || Listed(q, id))
    ensures Listed(RemoveAt(p, i), id) || Listed(q + [p[i]], id)
  {
    var r := q + [p[i]];
    if Listed(p, id) {
      RemovedRest(p, i);
      ListedAmong(RemoveAt(p, i), p, p[i], id);
      assert r[|q|] == p[i];
    } else {
      var j :| 0 <= j < |q| && q[j].id == id;
      assert r[j] == q[j];
    }
  }

  lemma {:induction false} OnlinePresent(r: Reg, driver: u32, info: Info, id: u32)
    requires Present(r, id)
    ensures Present(Online(r, driver, info), id)
  {
    hide LinkageCommands, Listed;
    var i, r' := IndexOfKey(r.offline, driver, info.mac), Online(r, driver, info);
    if i < |r.offline| {
      MovePresent(r.offline, r.online, i, id);
    } else if Listed(r.online, id) {
      LongerListed(r.online, NewDev(r.nextId, driver, info), id);
    }
  }

  lemma {:induction false} LongerListed(q: seq<Dev>, d: Dev, id: u32)
    requires Listed(q, id)
    ensures Listed(q + [d], id)
  {
    var j :| 0 <= j < |q| && q[j].id == id;
    assert (q + [d])[j] == q[j];
  }

  lemma {:induction false} OfflinePresent(r: Reg, gone: u32, id: u32)
    requires Present(r, id)
    ensures Present(Offline(r, gone), id)
  {
    hide LinkageCommands, Listed;
    var i := IndexOf(r.online, gone);
    if i < |r.online| {
      MovePresent(r.online, r.offline, i, id);
    }
  }

  lemma {:induction false} SweptPresent(r: Reg, vs: seq<VsDev>, id: u32)
    requires Present(r, id)
    ensures Present(SweptReg(r, vs), id)
    decreases |vs|
  {
    hide Present, Offline;
    if vs != [] {
      OfflinePresent(r, vs[0].id, id);
      SweptPresent(if vs[0].idle > MAX_IDLE then Offline(r, vs[0].id) else r, vs[1..], id);
    }
  }

  lemma {:induction false} EditedPresent(b: BoxState, s: Step, id: u32)
    requires Enabled(b, s) && Edits(s) && Present(b.reg, id)
    ensures Present(Apply(b, s).reg, id)
  {
    EditedIs(b, s);
    hide Apply, EditedAt;
    if Listed(b.reg.online, id) {
      var i :| 0 <= i < |b.reg.online| && b.reg.online[i].id == id;
      EditedId(b, s, i);
    }
  }

  lemma {:induction false} StepPresent(b: BoxState, s: Step, id: u32)
    requires Enabled(b, s) && Present(b.reg, id)
    ensures Present(Apply(b, s).reg, id)
  {
    hide Online, Offline, SweptReg, LinkageCommands;
    match s
    case VsRegister(ip, info) =>
      OnlinePresent(b.reg, VS_DRIVER, Info(info.cls, info.interface, PadMac(info.mac)), id);
    case CzRegister(addr, ep, info) =>
      OnlinePresent(b.reg, CZ_DRIVER, Info(info.cls, info.interface, info.mac), id);
    case VsSweep => SweptPresent(b.reg, b.vs, id);
    case SetRecord(_, _) => EditedPresent(b, s, id);
    case DeleteRecord(_, _, _) => EditedPresent(b, s, id);
    case Tick(_) => EditedPresent(b, s, id);
    case _ =>
  }

  lemma {:induction false} RunPresent(b: BoxState, steps: seq<Step>, id: u32)
    requires ValidRun(b, steps) && Present(b.reg, id)
    ensures Present(Run(b, steps).reg, id)
    decreases |steps|
  {
    hide Apply, Present;
    if steps != [] {
      StepPresent(b, steps[0], id);
      RunPresent(Apply(b, steps[0]), steps[1..], id);
    }
  }

  // ---------------------------------------------------------------- sound exactly until the wrap

  /** A sound registry gives the box's own id to no device. */
  lemma {:induction false} BoxIdUnsound(b: BoxState)
    requires Present(b.reg, BOX_ID)
    ensures !Inv(b)
  {
    if Listed(b.reg.online, BOX_ID) {
      var i :| 0 <= i < |b.reg.online| && b.reg.online[i].id == BOX_ID;
      assert !Known(b.reg.online[i], b.reg.nextId);
    } else {
      var i :| 0 <= i < |b.reg.offline| && b.reg.offline[i].id == BOX_ID;
      assert !Known(b.reg.offline[i], b.reg.nextId);
    }
  }

  /** The device a step creates has the counter's id. */
  lemma {:induction false} CreatedId(b: BoxState, s: Step)
    requires Enabled(b, s) && Allocates(b, s)
    ensures var r := Apply(b, s).reg; r.online != [] && r.online[|r.online| - 1].id == b.reg.nextId
  {
    hide LinkageCommands;
  }

  /** Along every run: sound at the end, exactly if no device was created after the counter wrapped,
      exactly if no device has the box's id. Once one has, it never goes away. */
  lemma {:induction false} RunInvIff(b: BoxState, steps: seq<Step>)
    requires Inv(b) && ValidRun(b, steps)
    ensures Inv(Run(b, steps)) <==> Ceiling(b.reg.nextId) + Allocations(b, steps) <= U32
    ensures Present(Run(b, steps).reg, BOX_ID) <==> Ceiling(b.reg.nextId) + Allocations(b, steps) > U32
    decreases |steps|
  {
    hide Apply, Inv, Present;
    if steps == [] {
      if Present(b.reg, BOX_ID) {
        BoxIdUnsound(b);
      }
    } else {
      var s, b' := steps[0], Apply(b, steps[0]);
      StepInv(b, s);
      StepNextId(b, s);
      if Allocates(b, s) && b.reg.nextId == 0 {
        CreatedPresent(b, s);
        RunPresent(b', steps[1..], BOX_ID);
        BoxIdUnsound(Run(b', steps[1..]));
      } else {
        RunInvIff(b', steps[1..]);
      }
    }
  }

  lemma {:induction false} CreatedPresent(b: BoxState, s: Step)
    requires Enabled(b, s) && Allocates(b, s)
    ensures Present(Apply(b, s).reg, b.reg.nextId)
  {
    CreatedId(b, s);
    hide Apply, Allocates;
    var q := Apply(b, s).reg.online;
    assert q[|q| - 1].id == b.reg.nextId;
  }

  /** Ids are distinct and none is the box's. */
  ghost predicate DistinctIds(r: Reg) {
    && !Present(r, BOX_ID)
    && (forall i, j :: 0 <= i < j < |r.online| ==> r.online[i].id != r.online[j].id)
    && (forall i, j :: 0 <= i < j < |r.offline| ==> r.offline[i].id != r.offline[j].id)
    && (forall i, j :: 0 <= i < |r.online| && 0 <= j < |r.offline| ==> r.online[i].id != r.offline[j].id)
  }

  lemma {:induction false} SoundIds(b: BoxState)
    requires Inv(b)
    ensures DistinctIds(b.reg)
  {
    if Present(b.reg, BOX_ID) {
      BoxIdUnsound(b);
    }
    var r := b.reg;
    forall i, j | 0 <= i < j < |r.online| ensures r.online[i].id != r.online[j].id {
      assert Apart(r.online[i], r.online[j]);
    }
    forall i, j | 0 <= i < j < |r.offline| ensures r.offline[i].id != r.offline[j].id {
      assert Apart(r.offline[i], r.offline[j]);
    }
    forall i, j | 0 <= i < |r.online| && 0 <= j < |r.offline| ensures r.online[i].id != r.offline[j].id {
      assert Apart(r.online[i], r.offline[j]);
    }
  }

  /** From start-up, the whole invariant holds, and what a client can see of it, distinct ids other
      than the box's, holds, if and only if fewer than 2^32 devices have been created. */
  lemma {:induction false} BoxInvIff(steps: seq<Step>)
    requires ValidRun(INITIAL_BOX, steps)
    ensures Inv(Run(INITIAL_BOX, steps)) <==> Allocations(INITIAL_BOX, steps) < U32
    ensures DistinctIds(Run(INITIAL_BOX, steps).reg) <==> Allocations(INITIAL_BOX, steps) < U32
  {
    RunInvIff(INITIAL_BOX, steps);
    hide Inv, Present, DistinctIds;
    var e := Run(INITIAL_BOX, steps);
    if Inv(e) {
      SoundIds(e);
    }
    DistinctMeans(e.reg);
  }

  lemma {:induction false} DistinctMeans(r: Reg)
    ensures DistinctIds(r) ==> !Present(r, BOX_ID)
  {
  }

  // ---------------------------------------------------------------- a run that wraps

  function MacOf(n: u32): seq<u8> {
    U32Bytes(n) + [0, 0, 0, 0]
  }

  lemma {:induction false} MacsDiffer(m: u32, n: u32)
    requires m != n
    ensures MacOf(m) != MacOf(n)
  {
    GetOfU32(m);
    GetOfU32(n);
    hide U32Bytes, GetU32;
    assert MacOf(m)[..4] == U32Bytes(m) && MacOf(n)[..4] == U32Bytes(n);
  }

  function Arrival(n: u32): Step {
    CzRegister(0, 0, CzInfo(0, 0, MacOf(n)))
  }

  /** The first `n` Zigbee devices announce themselves, one after the other. */
  function Arrivals(n: nat): (steps: seq<Step>)
    requires n <= U32
    ensures |steps| == n
  {
    if n == 0 then [] else Arrivals(n - 1) + [Arrival(n - 1)]
  }

  lemma {:induction false} RunSnoc(b: BoxState, steps: seq<Step>, s: Step)
    requires ValidRun(b, steps) && Enabled(Run(b, steps), s)
    ensures ValidRun(b, steps + [s]) && Run(b, steps + [s]) == Apply(Run(b, steps), s)
    ensures Allocations(b, steps + [s])
         == Allocations(b, steps) + (if Allocates(Run(b, steps), s) then 1 else 0)
    decreases |steps|
  {
    hide Apply, Allocates, Enabled;
    if steps == [] {
      assert steps + [s] == [s] && [s][1..] == [];
    } else {
      assert (steps + [s])[0] == steps[0] && (steps + [s])[1..] == steps[1..] + [s];
      RunSnoc(Apply(b, steps[0]), steps[1..], s);
    }
  }

  function CounterAt(n: nat): u32 {
    (n + 1) % U32
  }

  /** The driver lists the first `n` addresses, nobody is offline, and the counter stands behind
      them, modulo 2^32. */
  ghost predicate Arrived(b: BoxState, n: nat)
    requires n <= U32
  {
    && b.reg.offline == [] && b.reg.nextId == CounterAt(n)
    && |b.cz| == n && forall j :: 0 <= j < n ==> b.cz[j].info.mac == MacOf(j)
  }

  lemma {:induction false} CzArrives(b: BoxState, info: CzInfo)
    requires b.reg.offline == [] && CzIndexOfMac(b.cz, info.mac) == |b.cz|
    ensures var s := CzRegister(0, 0, info); var b' := Apply(b, s);
      && Allocates(b, s) && b'.reg.offline == [] && b'.reg.nextId == (b.reg.nextId + 1) % U32
      && |b'.cz| == |b.cz| + 1 && b'.cz[..|b.cz|] == b.cz && b'.cz[|b.cz|].info == info
  {
    hide LinkageCommands, NewDev;
  }

  lemma {:induction false} NewAddress(b: BoxState, n: u32)
    requires Arrived(b, n)
    ensures CzIndexOfMac(b.cz, MacOf(n)) == |b.cz|
  {
    forall j | 0 <= j < n ensures b.cz[j].info.mac != MacOf(n) {
      MacsDiffer(j, n);
    }
  }

  lemma {:induction false} NextArrives(b: BoxState, n: u32)
    requires Arrived(b, n)
    ensures Allocates(b, Arrival(n)) && Arrived(Apply(b, Arrival(n)), n + 1)
  {
    hide MacOf, Apply, Allocates, CounterAt, CzIndexOfMac;
    NewAddress(b, n);
    CzArrives(b, CzInfo(0, 0, MacOf(n)));
    CounterStep(n);
    var cz := Apply(b, Arrival(n)).cz;
    forall j | 0 <= j < n + 1 ensures cz[j].info.mac == MacOf(j) {
      assert j < n ==> cz[j] == cz[..n][j];
    }
  }

  lemma {:induction false} CounterStep(n: u32)
    ensures (CounterAt(n) + 1) % U32 == CounterAt(n + 1)
  {
  }

  lemma {:induction false} NobodyArrived()
    ensures Arrived(INITIAL_BOX, 0)
  {
  }

  lemma {:induction false} ArrivalsRun(n: nat)
    requires n <= U32
    ensures ValidRun(INITIAL_BOX, Arrivals(n)) && Allocations(INITIAL_BOX, Arrivals(n)) == n
    ensures Arrived(Run(INITIAL_BOX, Arrivals(n)), n)
  {
    hide Apply, Arrived, Allocates, MacOf;
    if n == 0 {
      NobodyArrived();
    } else {
      ArrivalsRun(n - 1);
      NextArrives(Run(INITIAL_BOX, Arrivals(n - 1)), n - 1);
      RunSnoc(INITIAL_BOX, Arrivals(n - 1), Arrival(n - 1));
    }
  }

  /** A run on which it happens: after 2^32 - 1 devices the registry is still sound and the counter
      stands at 0; the next device gets id 0, and the registry is sound no longer. */
  lemma {:induction false} WrapHappens()
    ensures ValidRun(INITIAL_BOX, Arrivals(U32 - 1)) && Inv(Run(INITIAL_BOX, Arrivals(U32 - 1)))
    ensures Run(INITIAL_BOX, Arrivals(U32 - 1)).reg.nextId == 0
    ensures ValidRun(INITIAL_BOX, Arrivals(U32)) && !Inv(Run(INITIAL_BOX, Arrivals(U32)))
    ensures Listed(Run(INITIAL_BOX, Arrivals(U32)).reg.online, BOX_ID)
  {
    WrapAt(U32);
  }

  lemma {:induction false} WrapAt(n: nat)
    requires n == U32
    ensures ValidRun(INITIAL_BOX, Arrivals(n - 1)) && Inv(Run(INITIAL_BOX, Arrivals(n - 1)))
    ensures Run(INITIAL_BOX, Arrivals(n - 1)).reg.nextId == 0
    ensures ValidRun(INITIAL_BOX, Arrivals(n)) && !Inv(Run(INITIAL_BOX, Arrivals(n)))
    ensures Listed(Run(INITIAL_BOX, Arrivals(n)).reg.online, BOX_ID)
  {
    hide Apply, Inv, Run, ValidRun, Allocations, Arrivals, Arrival, DistinctIds;
    ArrivalsRun(n - 1);
    ArrivalsRun(n);
    BoxInvIff(Arrivals(n - 1));
    BoxInvIff(Arrivals(n));
    var b := Run(INITIAL_BOX, Arrivals(n - 1));
    NextArrives(b, n - 1);
    CreatedId(b, Arrival(n - 1));
    ArrivalsStep(n);
    var q := Apply(b, Arrival(n - 1)).reg.online;
    assert q[|q| - 1].id == BOX_ID;
  }

  lemma {:induction false} ArrivalsStep(n: nat)
    requires 0 < n <= U32
    ensures ValidRun(INITIAL_BOX, Arrivals(n - 1)) && ValidRun(INITIAL_BOX, Arrivals(n))
    ensures Run(INITIAL_BOX, Arrivals(n)) == Apply(Run(INITIAL_BOX, Arrivals(n - 1)), Arrival(n - 1))
  {
    ArrivalsRun(n - 1);
    hide Apply, Arrived;
    RunSnoc(INITIAL_BOX, Arrivals(n - 1), Arrival(n - 1));
  }
}
