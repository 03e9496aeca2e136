/** Devices that keep talking: a message refreshes the first entry with its sender's address, so a
    talking device stays listed exactly if no entry before it has its address. */
module Liveness {
  import opened Device
  import opened Registry
  import opened Box
  import opened BoxRuns
  import opened Presence

  // ---------------------------------------------------------------- what is said of a run

  /** Sweeps since the last message from `ip`, if there were `c` before the step. */
  function Quiet(s: Step, ip: nat, c: nat): nat {
    if s == VsRefresh(ip) then 0 else if s.VsSweep? then c + 1 else c
  }

  /** A message from `ip` comes in every stretch of eleven sweeps; `c` have passed since the last. */
  ghost predicate Talks(steps: seq<Step>, ip: nat, c: nat) {
    c <= MAX_IDLE + 1 && (steps != [] ==> Talks(steps[1..], ip, Quiet(steps[0], ip, c)))
  }

  ghost predicate Listed(vs: seq<VsDev>, id: u32) {
    exists i :: 0 <= i < |vs| && vs[i].id == id
  }

  /** The driver lists the device in every state of the run. */
  ghost predicate AlwaysListed(b: BoxState, steps: seq<Step>, id: u32)
    requires ValidRun(b, steps)
    decreases |steps|
  {
    Listed(b.vs, id) && (steps != [] ==> AlwaysListed(Apply(b, steps[0]), steps[1..], id))
  }

  // ---------------------------------------------------------------- the first entry with an address

  /** The first entry with this address is the device's, and at most `c` sweeps old. */
  predicate FirstIs(vs: seq<VsDev>, ip: nat, id: u32, c: nat) {
    var j := VsIndexOfIp(vs, ip);
    j < |vs| && vs[j].id == id && vs[j].idle <= c
  }

  /** Entry `i` has the address too, behind the first that has it. */
  predicate BehindAt(vs: seq<VsDev>, ip: nat, v: VsDev, i: nat) {
    VsIndexOfIp(vs, ip) < i < |vs| && vs[i] == v && v.ip == ip
  }

  ghost predicate Behind(vs: seq<VsDev>, ip: nat, v: VsDev) {
    exists i :: BehindAt(vs, ip, v, i)
  }

  lemma {:induction false} SameAddresses(vs: seq<VsDev>, ws: seq<VsDev>, ip: nat)
    requires |vs| <= |ws| && forall i :: 0 <= i < |vs| ==> ws[i].ip == vs[i].ip
    requires VsIndexOfIp(vs, ip) < |vs|
    ensures VsIndexOfIp(ws, ip) == VsIndexOfIp(vs, ip)
  {
    var i, j := VsIndexOfIp(vs, ip), VsIndexOfIp(ws, ip);
    assert !(i < j) && !(j < i);
  }

  /** A sweep keeps a young first entry first, and what is behind it behind. */
  lemma {:induction false} SweepFirst(vs: seq<VsDev>, ip: nat)
    requires VsIndexOfIp(vs, ip) < |vs| && vs[VsIndexOfIp(vs, ip)].idle <= MAX_IDLE
    ensures var j, ws := VsIndexOfIp(vs, ip), SweptVs(vs); var k := VsIndexOfIp(ws, ip);
      k < |ws| && ws[k] == vs[j].(idle := vs[j].idle + 1)
  {
    if vs[0].ip == ip {
      assert SweptVs(vs)[0] == vs[0].(idle := vs[0].idle + 1);
    } else {
      SweepFirst(vs[1..], ip);
      var rest := SweptVs(vs[1..]);
      if vs[0].idle <= MAX_IDLE {
        var w := vs[0].(idle := vs[0].idle + 1);
        assert SweptVs(vs) == [w] + rest && ([w] + rest)[1..] == rest;
      }
    }
  }

  lemma {:induction false} SweepBehind(vs: seq<VsDev>, ip: nat, v: VsDev, i: nat) returns (k: nat)
    requires BehindAt(vs, ip, v, i) && vs[VsIndexOfIp(vs, ip)].idle <= MAX_IDLE && v.idle <= MAX_IDLE
    ensures BehindAt(SweptVs(vs), ip, v.(idle := v.idle + 1), k)
  {
    var v0, tail := vs[0], vs[1..];
    SweptCons(vs);
    FirstOfTail(vs, ip);
    hide SweptVs, VsIndexOfIp;
    assert tail[i - 1] == v;
    if v0.ip == ip {
      k := AgedBehind(v0, tail, v);
      FirstOfTail(SweptVs(vs), ip);
    } else {
      k := SweepBehind(tail, ip, v, i - 1);
      if v0.idle <= MAX_IDLE {
        BehindCons(v0.(idle := v0.idle + 1), SweptVs(tail), ip, v.(idle := v.idle + 1), k);
        k := k + 1;
      }
    }
  }

  lemma {:induction false} SweptCons(vs: seq<VsDev>)
    requires vs != []
    ensures SweptVs(vs)
         == (if vs[0].idle <= MAX_IDLE then [vs[0].(idle := vs[0].idle + 1)] else []) + SweptVs(vs[1..])
  {
  }

  lemma {:induction false} FirstOfTail(vs: seq<VsDev>, ip: nat)
    requires vs != []
    ensures VsIndexOfIp(vs, ip) == if vs[0].ip == ip then 0 else 1 + VsIndexOfIp(vs[1..], ip)
  {
  }

  lemma {:induction false} AgedBehind(v0: VsDev, tail: seq<VsDev>, v: VsDev) returns (k: nat)
    requires v0.idle <= MAX_IDLE && v in tail && v.idle <= MAX_IDLE
    ensures var ws := [v0.(idle := v0.idle + 1)] + SweptVs(tail);
      0 < k < |ws| && ws[k] == v.(idle := v.idle + 1)
  {
    SweepAges(tail, v);
    hide SweptVs;
    var p :| 0 <= p < |SweptVs(tail)| && SweptVs(tail)[p] == v.(idle := v.idle + 1);
    k := p + 1;
  }

  lemma {:induction false} BehindCons(w: VsDev, ws: seq<VsDev>, ip: nat, v: VsDev, k: nat)
    requires w.ip != ip && BehindAt(ws, ip, v, k)
    ensures BehindAt([w] + ws, ip, v, k + 1)
  {
    assert ([w] + ws)[1..] == ws;
  }

  // ---------------------------------------------------------------- one step

  /** Steps that are not sweeps keep every entry in its place, and change nothing of it but the idle
      count of the first entry with a message's address. */
  lemma {:induction false} EntriesStay(b: BoxState, s: Step)
    requires Enabled(b, s) && !s.VsSweep?
    ensures var vs, ws := b.vs, Apply(b, s).vs;
      |vs| <= |ws| && forall i :: 0 <= i < |vs| ==>
        ws[i] == if s.VsRefresh? && i == VsIndexOfIp(vs, s.ip) then vs[i].(idle := 0) else vs[i]
  {
    hide Online;
  }

  lemma {:induction false} FirstStep(b: BoxState, s: Step, ip: nat, id: u32, c: nat)
    requires Enabled(b, s) && FirstIs(b.vs, ip, id, c) && Quiet(s, ip, c) <= MAX_IDLE + 1
    ensures FirstIs(Apply(b, s).vs, ip, id, Quiet(s, ip, c))
  {
    if s.VsSweep? {
      SweepFirst(b.vs, ip);
    } else {
      EntriesStay(b, s);
      hide Apply;
      SameAddresses(b.vs, Apply(b, s).vs, ip);
    }
  }

  lemma {:induction false} BehindStep(b: BoxState, s: Step, ip: nat, id: u32, c: nat, v: VsDev)
    requires Enabled(b, s) && FirstIs(b.vs, ip, id, c) && Quiet(s, ip, c) <= MAX_IDLE + 1
    requires Behind(b.vs, ip, v) && (s.VsSweep? ==> v.idle <= MAX_IDLE)
    ensures Behind(Apply(b, s).vs, ip, if s.VsSweep? then v.(idle := v.idle + 1) else v)
  {
    var i :| BehindAt(b.vs, ip, v, i);
    if s.VsSweep? {
      var k := SweepBehind(b.vs, ip, v, i);
    } else {
      EntriesStay(b, s);
      hide Apply;
      SameAddresses(b.vs, Apply(b, s).vs, ip);
      assert BehindAt(Apply(b, s).vs, ip, v, i);
    }
  }

  /** The sweep that finds an entry eleven sweeps old drops its device. */
  lemma {:induction false} SweepUnlists(b: BoxState, v: VsDev)
    requires Inv(b) && v in b.vs && v.idle > MAX_IDLE
    ensures !Listed(Apply(b, VsSweep).vs, v.id)
  {
    AllSilent(b, v);
    SweepDrops(b.vs, v.id);
  }

  // ---------------------------------------------------------------- whole runs

  /** A talking device whose entry is the first with its address stays listed along every run. */
  lemma {:induction false} FirstStays(b: BoxState, steps: seq<Step>, ip: nat, id: u32, c: nat)
    requires ValidRun(b, steps) && FirstIs(b.vs, ip, id, c) && Talks(steps, ip, c)
    ensures AlwaysListed(b, steps, id)
    decreases |steps|
  {
    hide Apply, FirstIs;
    FirstListed(b.vs, ip, id, c);
    if steps != [] {
      FirstStep(b, steps[0], ip, id, c);
      FirstStays(Apply(b, steps[0]), steps[1..], ip, id, Quiet(steps[0], ip, c));
    }
  }

  lemma {:induction false} FirstListed(vs: seq<VsDev>, ip: nat, id: u32, c: nat)
    requires FirstIs(vs, ip, id, c)
    ensures Listed(vs, id)
  {
    assert vs[VsIndexOfIp(vs, ip)].id == id;
  }

  /** A device whose entry is behind a talking one with its address is dropped by its twelfth sweep,
      however much it talks itself: every message refreshes the other one. */
  lemma {:induction false} BehindDropped(b: BoxState, steps: seq<Step>, ip: nat, id: u32, c: nat, v: VsDev)
    requires Inv(b) && ValidRun(b, steps) && Ceiling(b.reg.nextId) + Allocations(b, steps) <= U32
    requires FirstIs(b.vs, ip, id, c) && Talks(steps, ip, c)
    requires Behind(b.vs, ip, v) && v.idle <= MAX_IDLE + 1 && v.idle + Sweeps(steps) > MAX_IDLE + 1
    ensures !AlwaysListed(b, steps, v.id)
    decreases |steps|
  {
    hide Apply, FirstIs, Behind, Inv, Listed;
    var s, b' := steps[0], Apply(b, steps[0]);
    if s.VsSweep? && v.idle > MAX_IDLE {
      BehindIn(b.vs, ip, v);
      SweepUnlists(b, v);
    } else {
      StepInv(b, s);
      StepNextId(b, s);
      FirstStep(b, s, ip, id, c);
      BehindStep(b, s, ip, id, c, v);
      BehindDropped(b', steps[1..], ip, id, Quiet(s, ip, c), if s.VsSweep? then v.(idle := v.idle + 1) else v);
    }
  }

  lemma {:induction false} BehindIn(vs: seq<VsDev>, ip: nat, v: VsDev)
    requires Behind(vs, ip, v)
    ensures v in vs
  {
  }

  /** Along every run of at least twelve sweeps that starts with a message from a listed device's
      address and has another in every stretch of eleven sweeps: the device stays listed if and only
      if no entry before it has its address. */
  lemma {:induction false} TalkingIff(b: BoxState, steps: seq<Step>, i: nat)
    requires Inv(b) && i < |b.vs|
    requires var e := Apply(b, VsRefresh(b.vs[i].ip));
      ValidRun(e, steps) && Ceiling(e.reg.nextId) + Allocations(e, steps) <= U32
    requires Talks(steps, b.vs[i].ip, 0) && Sweeps(steps) >= 12
    ensures AlwaysListed(Apply(b, VsRefresh(b.vs[i].ip)), steps, b.vs[i].id)
       <==> forall j :: 0 <= j < i ==> b.vs[j].ip != b.vs[i].ip
  {
    var v := b.vs[i];
    var e, j := Apply(b, VsRefresh(v.ip)), VsIndexOfIp(b.vs, v.ip);
    StepInv(b, VsRefresh(v.ip));
    EntriesStay(b, VsRefresh(v.ip));
    SameAddresses(b.vs, e.vs, v.ip);
    assert FirstIs(e.vs, v.ip, b.vs[j].id, 0);
    assert v.idle <= MAX_IDLE + 1;
    hide Inv, AlwaysListed, Talks, Sweeps, Allocations, FirstIs;
    if j == i {
      FirstStays(e, steps, v.ip, v.id, 0);
    } else {
      assert j < i && BehindAt(e.vs, v.ip, v, i);
      BehindDropped(e, steps, v.ip, b.vs[j].id, 0, v);
    }
  }

  // ---------------------------------------------------------------- two devices with one address

  const FIRST := VsInfo(0, 0, [1, 0, 0, 0, 0, 0])
  const SECOND := VsInfo(0, 0, [2, 0, 0, 0, 0, 0])

  /** Sweeps with a message from `ip` after each. */
  function Chatter(ip: nat, n: nat): seq<Step> {
    if n == 0 then [] else [VsSweep, VsRefresh(ip)] + Chatter(ip, n - 1)
  }

  lemma {:induction false} TalkCons(b: BoxState, s: Step, rest: seq<Step>, ip: nat, c: nat)
    requires Enabled(b, s) && !Allocates(b, s) && c <= MAX_IDLE + 1
    requires ValidRun(Apply(b, s), rest) && Allocations(Apply(b, s), rest) == 0 && Talks(rest, ip, Quiet(s, ip, c))
    ensures ValidRun(b, [s] + rest) && Allocations(b, [s] + rest) == 0 && Talks([s] + rest, ip, c)
    ensures Sweeps([s] + rest) == Sweeps(rest) + if s.VsSweep? then 1 else 0
  {
    hide Apply, Enabled, Allocates, Quiet;
    assert ([s] + rest)[0] == s && ([s] + rest)[1..] == rest;
  }

  lemma {:induction false} ChatterTalks(b: BoxState, ip: nat, n: nat)
    ensures ValidRun(b, Chatter(ip, n)) && Allocations(b, Chatter(ip, n)) == 0
    ensures Talks(Chatter(ip, n), ip, 0) && Sweeps(Chatter(ip, n)) == n
    decreases n
  {
    if n > 0 {
      var rest, b1 := Chatter(ip, n - 1), Apply(b, VsSweep);
      assert Enabled(b, VsSweep) && !Allocates(b, VsSweep) && Quiet(VsSweep, ip, 0) == 1;
      assert Enabled(b1, VsRefresh(ip)) && !Allocates(b1, VsRefresh(ip)) && Quiet(VsRefresh(ip), ip, 1) == 0;
      assert 1 <= MAX_IDLE + 1;
      hide *;
      ChatterIs(ip, n);
      ChatterTalks(Apply(b1, VsRefresh(ip)), ip, n - 1);
      TalkCons(b1, VsRefresh(ip), rest, ip, 1);
      TalkCons(b, VsSweep, [VsRefresh(ip)] + rest, ip, 0);
      assert [VsSweep] + ([VsRefresh(ip)] + rest) == [VsSweep, VsRefresh(ip)] + rest;
    }
  }

  lemma {:induction false} ChatterIs(ip: nat, n: nat)
    requires n > 0
    ensures Chatter(ip, n) == [VsSweep, VsRefresh(ip)] + Chatter(ip, n - 1)
  {
  }

  /** A device that nobody knows yet is listed last. */
  lemma {:induction false} NewEntry(b: BoxState, ip: nat, info: VsInfo)
    requires Inv(b) && b.reg.offline == [] && VsIndexOfMac(b.vs, info.mac) == |b.vs| && 0 < b.reg.nextId < 10
    ensures var b' := Apply(b, VsRegister(ip, info));
      && Inv(b') && b'.reg.offline == [] && b'.reg.nextId == b.reg.nextId + 1
      && |b'.vs| == |b.vs| + 1 && b'.vs[..|b.vs|] == b.vs && b'.vs[|b.vs|].ip == ip && b'.vs[|b.vs|].info == info
  {
    hide Inv, LinkageCommands, NewDev;
    StepInv(b, VsRegister(ip, info));
  }

  lemma {:induction false} BothListed(ip: nat, b1: BoxState, b2: BoxState)
    requires b1 == Apply(INITIAL_BOX, VsRegister(ip, FIRST)) && b2 == Apply(b1, VsRegister(ip, SECOND))
    ensures Inv(b2) && Ceiling(b2.reg.nextId) == 3
    ensures |b2.vs| == 2 && b2.vs[0].ip == ip && b2.vs[1].ip == ip
  {
    hide Inv, Apply;
    StartInv();
    NewEntry(INITIAL_BOX, ip, FIRST);
    assert FIRST.mac[0] != SECOND.mac[0] && VsIndexOfMac(b1.vs, SECOND.mac) == 1;
    NewEntry(b1, ip, SECOND);
    assert b2.vs[0] == b2.vs[..1][0];
  }

  /** A run from start-up: two devices announce themselves from one address and then send a message
      after every sweep; the second is dropped. */
  lemma {:induction false} TalkingDropped(ip: nat)
    ensures var b1 := Apply(INITIAL_BOX, VsRegister(ip, FIRST));
      var b2 := Apply(b1, VsRegister(ip, SECOND));
      var e := Apply(b2, VsRefresh(ip));
      && |b2.vs| == 2 && b2.vs[1].ip == ip
      && ValidRun(e, Chatter(ip, 12)) && !AlwaysListed(e, Chatter(ip, 12), b2.vs[1].id)
  {
    var b1 := Apply(INITIAL_BOX, VsRegister(ip, FIRST));
    var b2 := Apply(b1, VsRegister(ip, SECOND));
    var e := Apply(b2, VsRefresh(ip));
    BothListed(ip, b1, b2);
    assert e.reg == b2.reg;
    hide Inv, Apply, Chatter, AlwaysListed, Talks, Sweeps, Allocations;
    ChatterTalks(e, ip, 12);
    TalkingIff(b2, Chatter(ip, 12), 1);
  }
}
