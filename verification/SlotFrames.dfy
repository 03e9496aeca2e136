/** What the bytes of a slot frame mean: which field stands where, what a stored linkage or timer
    puts in the action queue, and what a deletion undoes. */
module SlotFrames {
  import opened Device
  import opened Registry
  import opened Box
  import opened BoxRuns
  import opened Timers
  import opened Firings
  import opened Wire
  import opened Requests

  // ---------------------------------------------------------------- fields

  /** Two and four bytes, least significant first. */
  function Le16(b: bytes, o: nat): int
    requires o + 2 <= |b|
  {
    var lo: int, hi: int := b[o], b[o + 1];
    lo + 256 * hi
  }

  function Le32(b: bytes, o: nat): int
    requires o + 4 <= |b|
  {
    Le16(b, o) + 65536 * Le16(b, o + 2)
  }

  lemma {:induction false} Read16(b: bytes, o: nat)
    requires o + 2 <= |b|
    ensures GetU16(b[o..o + 2]) == Le16(b, o)
  {
  }

  lemma {:induction false} Read32(b: bytes, o: nat)
    requires o + 4 <= |b|
    ensures GetU32(b[o..o + 4]) == Le32(b, o)
  {
    var w := b[o..o + 4];
    assert w[..2] == [b[o], b[o + 1]] && w[2..] == [b[o + 2], b[o + 3]];
  }

  /** The device and the slot of every slot frame. */
  lemma {:induction false} FrameTarget(buf: bytes)
    requires |buf| >= 10
    ensures DevidOf(buf) == Le32(buf, 4) && SlotOf(buf) == Le16(buf, 8)
  {
    Read32(buf, 4);
    Read16(buf, 8);
  }

  function TimerIn(buf: bytes): Timer
    requires |buf| >= 24
  {
    ParseRecord(TimerSlot, BodyOf(buf, TimerSlot)).timer
  }

  function LinkIn(buf: bytes): Linkage
    requires |buf| >= 32
  {
    ParseRecord(LinkSlot, BodyOf(buf, LinkSlot)).link
  }

  function DelayIn(buf: bytes): Delay
    requires |buf| >= 32
  {
    ParseRecord(DelaySlot, BodyOf(buf, DelaySlot)).delay
  }

  lemma {:induction false} Slice<T>(s: seq<T>, a: nat, z: nat, o: nat, m: nat)
    requires a <= z <= |s| && o <= m <= z - a
    ensures s[a..z][o..m] == s[o + a..m + a]
  {
    var x, y := s[a..z][o..m], s[o + a..m + a];
    forall i | 0 <= i < m - o ensures x[i] == y[i] {
      assert x[i] == s[a..z][o + i] == s[a + o + i];
    }
  }

  /** A field of the body stands four bytes later in the frame. */
  lemma {:induction false} BodyField16(buf: bytes, kind: SlotKind, o: nat)
    requires |buf| >= 4 + BodyLength(kind) && o + 2 <= BodyLength(kind)
    ensures GetU16(BodyOf(buf, kind)[o..o + 2]) == Le16(buf, o + 4)
  {
    Slice(buf, 4, 4 + BodyLength(kind), o, o + 2);
    Read16(buf, o + 4);
  }

  lemma {:induction false} BodyField32(buf: bytes, kind: SlotKind, o: nat)
    requires |buf| >= 4 + BodyLength(kind) && o + 4 <= BodyLength(kind)
    ensures GetU32(BodyOf(buf, kind)[o..o + 4]) == Le32(buf, o + 4)
  {
    Slice(buf, 4, 4 + BodyLength(kind), o, o + 4);
    Read32(buf, o + 4);
  }

  /** Where the fields of a SET_TIMER frame stand. */
  lemma {:induction false} TimerFields(buf: bytes)
    requires |buf| >= 24
    ensures var t := TimerIn(buf);
      && t.id == Le16(buf, 8) && t.workMode == buf[10] && t.flag == buf[11]
      && t.hour == buf[12] && t.min == buf[13] && t.sec == buf[14] && t.wday == buf[15]
      && t.actId == Le16(buf, 16) && t.actParam1 == Le16(buf, 18) && t.actParam2 == Le32(buf, 20)
  {
    hide GetU16, GetU32, Le16, Le32;
    BodyField16(buf, TimerSlot, 4);
    BodyField16(buf, TimerSlot, 12);
    BodyField16(buf, TimerSlot, 14);
    BodyField32(buf, TimerSlot, 16);
  }

  /** Where the fields of a SET_LINKAGE frame stand. */
  lemma {:induction false} LinkFields(buf: bytes)
    requires |buf| >= 32
    ensures var l := LinkIn(buf);
      && l.id == Le16(buf, 8) && l.workMode == buf[10] && l.flag == buf[11]
      && l.evtId == Le16(buf, 12) && l.evtParam1 == Le16(buf, 14) && l.evtParam2 == Le32(buf, 16)
      && l.actDevid == Le32(buf, 20)
      && l.actId == Le16(buf, 24) && l.actParam1 == Le16(buf, 26) && l.actParam2 == Le32(buf, 28)
  {
    hide GetU16, GetU32, Le16, Le32;
    BodyField16(buf, LinkSlot, 4);
    BodyField16(buf, LinkSlot, 8);
    BodyField16(buf, LinkSlot, 10);
    BodyField32(buf, LinkSlot, 12);
    BodyField32(buf, LinkSlot, 16);
    BodyField16(buf, LinkSlot, 20);
    BodyField16(buf, LinkSlot, 22);
    BodyField32(buf, LinkSlot, 24);
  }

  /** Where the fields of a SET_DELAY frame stand. */
  lemma {:induction false} DelayFields(buf: bytes)
    requires |buf| >= 32
    ensures var y := DelayIn(buf);
      && y.id == Le16(buf, 8) && y.workMode == buf[10] && y.flag == buf[11]
      && y.evtId == Le16(buf, 12) && y.evtParam1 == Le16(buf, 14) && y.evtParam2 == Le32(buf, 16)
      && y.actId == Le16(buf, 20) && y.actParam1 == Le16(buf, 22) && y.actParam2 == Le32(buf, 24)
      && y.delaySec == Le32(buf, 28)
  {
    hide GetU16, GetU32, Le16, Le32;
    BodyField16(buf, DelaySlot, 4);
    BodyField16(buf, DelaySlot, 8);
    BodyField16(buf, DelaySlot, 10);
    BodyField32(buf, DelaySlot, 12);
    BodyField16(buf, DelaySlot, 16);
    BodyField16(buf, DelaySlot, 18);
    BodyField32(buf, DelaySlot, 20);
    BodyField32(buf, DelaySlot, 24);
  }

  /** Which request a command byte stands for. */
  lemma {:induction false} RequestBytes(buf: bytes)
    requires |buf| >= 4 && buf[1] == 0x88
    ensures RequestOf(buf) == Get(TimerSlot) <==> buf[0] == 0x31
    ensures RequestOf(buf) == Set(TimerSlot) <==> buf[0] == 0x33
    ensures RequestOf(buf) == Delete(TimerSlot) <==> buf[0] == 0x34
    ensures RequestOf(buf) == Get(DelaySlot) <==> buf[0] == 0x41
    ensures RequestOf(buf) == Set(DelaySlot) <==> buf[0] == 0x43
    ensures RequestOf(buf) == Delete(DelaySlot) <==> buf[0] == 0x44
    ensures RequestOf(buf) == Get(LinkSlot) <==> buf[0] == 0x51
    ensures RequestOf(buf) == Set(LinkSlot) <==> buf[0] == 0x53
    ensures RequestOf(buf) == Delete(LinkSlot) <==> buf[0] == 0x54
  {
    assert buf[..2] == [buf[0], buf[1]];
  }

  /** How many slots of each kind a device has. */
  lemma {:induction false} SlotNumbers(d: Dev)
    ensures SlotCount(TimerSlot) == |d.timers| == 32
    ensures SlotCount(DelaySlot) == |d.delays| == 8 && SlotCount(LinkSlot) == |d.links| == 8
  {
  }

  /** The bytes of a result frame and of a record frame's header. */
  lemma {:induction false} ReplyBytes(e: Error, devid: u32, v: Record)
    ensures ResultFrame(e)[..4] == [0xA1, 0x88, 8, 0] && ResultFrame(e)[5..] == [0, 0, 0]
    ensures ResultFrame(Ok)[4] == 0 && ResultFrame(InvalidMsg)[4] == 1 && ResultFrame(NotSupported)[4] == 2
    ensures ResultFrame(BadParam)[4] == 3 && ResultFrame(EntryNotFound)[4] == 6
    ensures ResultFrame(ActFailed)[4] == 7 && ResultFrame(Others)[4] == 8
    ensures |RecordFrame(devid, v)| == (if v.TimerRecord? then 24 else 32)
    ensures RecordFrame(devid, v)[..4]
         == [if v.TimerRecord? then 0x32 else if v.DelayRecord? then 0x42 else 0x52, 0x88, |RecordFrame(devid, v)|, 0]
  {
    hide Body;
    var f := RecordFrame(devid, v);
    assert f[..4] == Header(GetResponse(KindOf(v)), 4 + BodyLength(KindOf(v)));
  }

  // ---------------------------------------------------------------- what is refused

  /** A slot request is refused, with error 3 and without effect, exactly if the device is not online,
      the slot is out of range or, for GET and DEL, not in use. */
  lemma {:induction false} RefusedIff(r: Reg, buf: bytes)
    requires SlotRequest(buf)
    ensures var i, k := IndexOf(r.online, DevidOf(buf)), SlotOf(buf);
      var kind := RequestOf(buf).kind;
      var refused := i == |r.online| || k >= SlotCount(kind)
        || (!RequestOf(buf).Set? && !IsActive(r.online[i], kind, k));
      && (Dealt(r, buf).1 == ResultFrame(BadParam) <==> refused)
      && (refused ==> Dealt(r, buf).0 == r)
  {
    ResultCodes(Ok);
    if RequestOf(buf).Set? {
      ParsedFields(buf, RequestOf(buf).kind);
      hide ParseRecord, BodyOf, Stored, DevidOf, SlotOf, RequestOf;
      ReplyCodes();
    } else {
      hide DevidOf, SlotOf, RequestOf, Cleared, IsActive, Body;
      ReplyCodes();
      if RequestOf(buf).Get? && SlotGot(r, DevidOf(buf), RequestOf(buf).kind, SlotOf(buf)).Found? {
        RecordIsNoResult(DevidOf(buf), SlotGot(r, DevidOf(buf), RequestOf(buf).kind, SlotOf(buf)).record);
      }
    }
  }

  lemma {:induction false} ReplyCodes()
    ensures ResultFrame(Ok) != ResultFrame(BadParam)
  {
    assert ResultFrame(Ok)[4] == 0 && ResultFrame(BadParam)[4] == 3;
  }

  lemma {:induction false} RecordIsNoResult(devid: u32, v: Record)
    ensures RecordFrame(devid, v) != ResultFrame(BadParam)
  {
    ReplyBytes(BadParam, devid, v);
  }

  // ---------------------------------------------------------------- deletion

  /** The device, wherever it is, has this slot inactive. */
  predicate Off(d: Dev, id: u32, kind: SlotKind, k: nat)
    requires k < SlotCount(kind)
  {
    d.id == id ==> !IsActive(d, kind, k)
  }

  ghost predicate AllOff(b: BoxState, id: u32, kind: SlotKind, k: nat)
    requires k < SlotCount(kind)
  {
    All(b.reg, (d: Dev) => Off(d, id, kind, k))
  }

  /** Everything about the device but this slot is the same. */
  predicate SameBut(d: Dev, e: Dev, kind: SlotKind, k: nat) {
    && SameDevice(d, e)
    && (forall j :: 0 <= j < MAX_TIMERS && !(kind.TimerSlot? && j == k) ==> e.timers[j] == d.timers[j])
    && (forall j :: 0 <= j < MAX_DELAYS && !(kind.DelaySlot? && j == k) ==> e.delays[j] == d.delays[j])
    && (forall j :: 0 <= j < MAX_LINKS && !(kind.LinkSlot? && j == k) ==> e.links[j] == d.links[j])
  }

  /** A deletion is accepted exactly if the slot can be read; then it cannot be read or deleted any
      more, and nothing else has changed, on this device or another. */
  lemma {:induction false} DeleteUndoes(r: Reg, id: u32, kind: SlotKind, k: u16)
    ensures SlotDeleted(r, id, kind, k).1 == Ok <==> SlotGot(r, id, kind, k).Found?
    ensures SlotDeleted(r, id, kind, k).1 == Ok ==>
      var (r', _) := SlotDeleted(r, id, kind, k); var i := IndexOf(r.online, id);
      && SlotGot(r', id, kind, k) == Missing && SlotDeleted(r', id, kind, k) == (r', BadParam)
      && r' == r.(online := r'.online) && |r'.online| == |r.online|
      && (forall j :: 0 <= j < |r.online| && j != i ==> r'.online[j] == r.online[j])
      && SameBut(r.online[i], r'.online[i], kind, k)
  {
    var i := IndexOf(r.online, id);
    if SlotDeleted(r, id, kind, k).1 == Ok {
      var r' := SlotDeleted(r, id, kind, k).0;
      assert r'.online[i].id == id && forall j :: 0 <= j < i ==> r'.online[j].id != id;
      assert IndexOf(r'.online, id) == i;
    }
  }

  /** After an accepted deletion the slot is inactive, wherever the device is. */
  lemma {:induction false} DeleteTurnsOff(b: BoxState, id: u32, kind: SlotKind, k: u16)
    requires Inv(b) && SlotDeleted(b.reg, id, kind, k).1 == Ok
    ensures k < SlotCount(kind) && AllOff(Apply(b, DeleteRecord(id, kind, k)), id, kind, k)
  {
    var i := IndexOf(b.reg.online, id);
    OnlyOne(b, i);
    hide Inv;
    var r := Apply(b, DeleteRecord(id, kind, k)).reg;
    forall j | 0 <= j < |r.online| ensures Off(r.online[j], id, kind, k) {
      assert j != i ==> r.online[j] == b.reg.online[j];
    }
  }

  /** The step sets the slot anew. */
  predicate SetsSlot(s: Step, id: u32, kind: SlotKind, k: nat) {
    s.SetRecord? && s.id == id && KindOf(s.v) == kind && RecordId(s.v) == k
  }

  lemma {:induction false} OffEdited(b: BoxState, s: Step, id: u32, kind: SlotKind, k: nat, i: nat)
    requires Enabled(b, s) && Edits(s) && i < |b.reg.online| && k < SlotCount(kind) && !SetsSlot(s, id, kind, k)
    requires Off(b.reg.online[i], id, kind, k)
    ensures Off(EditedAt(b, s, i), id, kind, k)
  {
  }

  lemma {:induction false} OffNew(id: u32, kind: SlotKind, k: nat, nextId: u32, driver: u32, info: Info)
    requires k < SlotCount(kind)
    ensures Off(NewDev(nextId, driver, info), id, kind, k)
  {
  }

  lemma {:induction false} OffStep(b: BoxState, s: Step, id: u32, kind: SlotKind, k: nat)
    requires Enabled(b, s) && k < SlotCount(kind) && AllOff(b, id, kind, k) && !SetsSlot(s, id, kind, k)
    ensures AllOff(Apply(b, s), id, kind, k)
  {
    hide Apply, Off, EditedAt, NewDev;
    var p := (d: Dev) => Off(d, id, kind, k);
    if Edits(s) {
      forall i | 0 <= i < |b.reg.online| ensures p(EditedAt(b, s, i)) {
        assert p(b.reg.online[i]);
        OffEdited(b, s, id, kind, k, i);
      }
    }
    forall driver, info ensures p(NewDev(b.reg.nextId, driver, info)) {
      OffNew(id, kind, k, b.reg.nextId, driver, info);
    }
    StepAll(b, s, p);
  }

  /** A slot that is not set stays inactive along every run. */
  lemma {:induction false} OffRun(b: BoxState, steps: seq<Step>, id: u32, kind: SlotKind, k: nat)
    requires ValidRun(b, steps) && k < SlotCount(kind) && AllOff(b, id, kind, k)
    requires forall i :: 0 <= i < |steps| ==> !SetsSlot(steps[i], id, kind, k)
    ensures AllOff(Run(b, steps), id, kind, k)
    decreases |steps|
  {
    hide Apply, AllOff, SetsSlot;
    if steps != [] {
      OffStep(b, steps[0], id, kind, k);
      OffRun(Apply(b, steps[0]), steps[1..], id, kind, k);
    }
  }

  /** What an inactive slot does not do: it cannot be read, its timer fires in no sweep, its linkage
      answers no event. */
  lemma {:induction false} OffIsSilent(b: BoxState, id: u32, kind: SlotKind, k: u16, i: nat)
    requires k < SlotCount(kind) && AllOff(b, id, kind, k) && i < |b.reg.online| && b.reg.online[i].id == id
    ensures SlotGot(b.reg, id, kind, k) == Missing
    ensures kind.TimerSlot? ==> forall s :: Enabled(b, s) ==> !FiresAt(b, s, id, k, i)
    ensures kind.LinkSlot? ==>
      forall mode: nat, evt: Event :: k !in Triggered(b.reg.online[i].links, MAX_LINKS, mode, evt)
  {
    var j := IndexOf(b.reg.online, id);
    var p := (d: Dev) => Off(d, id, kind, k);
    assert p(b.reg.online[j]) && p(b.reg.online[i]);
    if kind.LinkSlot? {
      forall mode: nat, evt: Event ensures k !in Triggered(b.reg.online[i].links, MAX_LINKS, mode, evt) {
        var ks := Triggered(b.reg.online[i].links, MAX_LINKS, mode, evt);
        assert forall p :: 0 <= p < |ks| ==> ks[p] != k;
      }
    }
  }

  /** A deleted timer never fires until it is set again. */
  lemma {:induction false} DeletedTimerSilent(b: BoxState, id: u32, k: u16, steps: seq<Step>)
    requires Inv(b) && SlotDeleted(b.reg, id, TimerSlot, k).1 == Ok
    requires ValidRun(Apply(b, DeleteRecord(id, TimerSlot, k)), steps) && NotSet(steps, id, k)
    ensures k < MAX_TIMERS && FireTotal(Apply(b, DeleteRecord(id, TimerSlot, k)), steps, id, k) == 0
  {
    DeleteTurnsOff(b, id, TimerSlot, k);
    var c := Apply(b, DeleteRecord(id, TimerSlot, k));
    hide Inv, Apply, FireTotal;
    OffIsInactive(c, id, k);
    InactiveRun(c, steps, id, k);
  }

  lemma {:induction false} OffIsInactive(b: BoxState, id: u32, k: nat)
    requires k < MAX_TIMERS && AllOff(b, id, TimerSlot, k)
    ensures AllInactive(b, id, k)
  {
    var p := (d: Dev) => Off(d, id, TimerSlot, k);
    forall i | 0 <= i < |b.reg.online| ensures Inactive(b.reg.online[i], id, k) {
      assert p(b.reg.online[i]);
    }
    forall i | 0 <= i < |b.reg.offline| ensures Inactive(b.reg.offline[i], id, k) {
      assert p(b.reg.offline[i]);
    }
  }

  /** Over the wire: after an accepted DEL frame and any run that does not set the slot again, a GET
      is answered with a result frame that says error 3, and the slot does nothing. */
  lemma {:induction false} DeleteThenGet(b: BoxState, delBuf: bytes, kind: SlotKind, steps: seq<Step>, getBuf: bytes)
    requires Inv(b) && SlotRequest(delBuf) && SlotRequest(getBuf)
    requires RequestOf(delBuf) == Delete(kind) && RequestOf(getBuf) == Get(kind)
    requires DevidOf(getBuf) == DevidOf(delBuf) && SlotOf(getBuf) == SlotOf(delBuf)
    requires Dealt(b.reg, delBuf).1 == ResultFrame(Ok)
    requires ValidRun(b.(reg := Dealt(b.reg, delBuf).0), steps)
    requires forall i :: 0 <= i < |steps| ==> !SetsSlot(steps[i], DevidOf(delBuf), kind, SlotOf(delBuf))
    ensures var e := Run(b.(reg := Dealt(b.reg, delBuf).0), steps);
      && SlotOf(delBuf) < SlotCount(kind) && AllOff(e, DevidOf(delBuf), kind, SlotOf(delBuf))
      && Dealt(e.reg, getBuf) == (e.reg, [0xA1, 0x88, 8, 0, 3, 0, 0, 0])
  {
    var id, k := DevidOf(delBuf), SlotOf(delBuf);
    ResultCodes(SlotDeleted(b.reg, id, kind, k).1);
    var c := Apply(b, DeleteRecord(id, kind, k));
    assert c == b.(reg := Dealt(b.reg, delBuf).0);
    DeleteTurnsOff(b, id, kind, k);
    OffRun(c, steps, id, kind, k);
    var e := Run(c, steps);
    OffMissing(e, id, kind, k);
    BadParamBytes();
  }

  lemma {:induction false} OffMissing(b: BoxState, id: u32, kind: SlotKind, k: u16)
    requires k < SlotCount(kind) && AllOff(b, id, kind, k)
    ensures SlotGot(b.reg, id, kind, k) == Missing
  {
    var i := IndexOf(b.reg.online, id);
    if i < |b.reg.online| {
      OffIsSilent(b, id, kind, k, i);
    }
  }

  lemma {:induction false} BadParamBytes()
    ensures ResultFrame(BadParam) == [0xA1, 0x88, 8, 0, 3, 0, 0, 0]
  {
  }

  // ---------------------------------------------------------------- linkages

  /** The command of a SET_LINKAGE frame: an action if bit 0 of its flag byte is set, otherwise one
      status value; the device, the id and the parameters stand from offset 20 on. */
  predicate LinkFrameCommand(cmd: Command, buf: bytes)
    requires |buf| >= 32
  {
    && (cmd.DoAction? <==> buf[11] % 2 == 1) && (cmd.DoAction? || cmd.SetStatus?)
    && cmd.devid == Le32(buf, 20)
    && (cmd.DoAction? ==> cmd.id == Le16(buf, 24) && cmd.param1 == Le16(buf, 26) && cmd.param2 == Le32(buf, 28))
    && (cmd.SetStatus? ==> |cmd.pairs| == 1 && cmd.pairs[0].0 == Le16(buf, 24) && cmd.pairs[0].1 == Le16(buf, 26))
  }

  /** The event that a SET_LINKAGE frame names, in a mode that its mask byte carries. */
  predicate LinkFrameEvent(evt: Event, mode: nat, buf: bytes)
    requires |buf| >= 32
  {
    && Bit(buf[10], mode)
    && evt.id == Le16(buf, 12) && evt.param1 == Le16(buf, 14) && evt.param2 == Le32(buf, 16)
  }

  lemma {:induction false} LinkCommandIs(buf: bytes)
    requires |buf| >= 32
    ensures LinkFrameCommand(LinkCommand(LinkIn(buf)), buf)
  {
    LinkFields(buf);
    hide Le16, Le32, LinkIn;
  }

  /** The commands that an event queues are those of the slots that it triggers, in slot order; the
      frame's slot is among them exactly if it is the frame's event, and its command is the frame's. */
  ghost predicate AnswersAsFramed(b: BoxState, buf: bytes, evt: Event)
    requires |buf| >= 32 && IsOnline(b, evt.devid)
  {
    var r, links := Notify(b.reg, evt), b.reg.online[IndexOf(b.reg.online, evt.devid)].links;
    var ks, k := Triggered(links, MAX_LINKS, b.reg.workMode, evt), Le16(buf, 8);
    && |r.acts| == |b.reg.acts| + |ks| && r.acts[..|b.reg.acts|] == b.reg.acts
    && (k in ks <==> LinkFrameEvent(evt, b.reg.workMode, buf))
    && forall p :: 0 <= p < |ks| && ks[p] == k ==> LinkFrameCommand(r.acts[|b.reg.acts| + p], buf)
  }

  /** A linkage stored by a frame, on a device that is online: of all events of the device it answers
      exactly the one that the frame names, in the modes of its mask, and then it queues, at the place
      of its slot, the command that the frame names. */
  lemma {:induction false} LinkageAnswers(b: BoxState, buf: bytes, evt: Event)
    requires Inv(b) && |buf| >= 32 && Le16(buf, 8) < MAX_LINKS
    requires evt.devid == Le32(buf, 4) && IsOnline(b, evt.devid)
    requires LinkIn(buf).id < MAX_LINKS && AllHold(b, evt.devid, LinkRecord(LinkIn(buf)))
    ensures AnswersAsFramed(b, buf, evt)
  {
    hide Inv, AllHold, LinkIn, Le16, Le32, Bit, Triggered, LinkCommands, Notify, LinkFrameEvent, LinkFrameCommand;
    var l, d := LinkIn(buf), b.reg.online[IndexOf(b.reg.online, evt.devid)];
    HeldLinkage(b, evt.devid, l);
    EventCommands(b.reg, evt);
    SlotAnswers(d.links, l, b.reg.workMode, evt, buf);
    Appended(b.reg.acts, LinkCommands(d.links, Triggered(d.links, MAX_LINKS, b.reg.workMode, evt)));
  }

  lemma {:induction false} Appended<T>(a: seq<T>, c: seq<T>)
    ensures |a + c| == |a| + |c| && (a + c)[..|a|] == a && forall p :: 0 <= p < |c| ==> (a + c)[|a| + p] == c[p]
  {
  }

  lemma {:induction false} HeldLinkage(b: BoxState, id: u32, l: Linkage)
    requires Inv(b) && IsOnline(b, id) && l.id < MAX_LINKS && AllHold(b, id, LinkRecord(l))
    ensures var d := b.reg.online[IndexOf(b.reg.online, id)];
      d.links[l.id].value == l && d.links[l.id].active && Bit(d.workMode, b.reg.workMode)
  {
    var d := b.reg.online[IndexOf(b.reg.online, id)];
    assert ((d: Dev) => Holds(d, id, LinkRecord(l)))(d);
    assert Known(d, b.reg.nextId);
    AllModesBit(b.reg.workMode);
  }

  lemma {:induction false} EventCommands(r: Reg, evt: Event)
    requires IndexOf(r.online, evt.devid) < |r.online|
    requires Bit(r.online[IndexOf(r.online, evt.devid)].workMode, r.workMode)
    ensures var links := r.online[IndexOf(r.online, evt.devid)].links;
      Notify(r, evt).acts == r.acts + LinkCommands(links, Triggered(links, MAX_LINKS, r.workMode, evt))
  {
  }

  /** One slot that holds a frame's linkage. */
  lemma {:induction false} SlotAnswers(links: seq<Slot<Linkage>>, l: Linkage, mode: nat, evt: Event, buf: bytes)
    requires |links| == MAX_LINKS && |buf| >= 32 && l == LinkIn(buf) && l.id < MAX_LINKS
    requires links[l.id].value == l && links[l.id].active
    ensures var ks, k := Triggered(links, MAX_LINKS, mode, evt), Le16(buf, 8);
      && (k in ks <==> LinkFrameEvent(evt, mode, buf))
      && forall p :: 0 <= p < |ks| && ks[p] == k ==> LinkFrameCommand(LinkCommands(links, ks)[p], buf)
  {
    LinkFields(buf);
    LinkCommandIs(buf);
    hide LinkFrameCommand, LinkIn, Le16, Le32, Bit, LinkCommand, Triggered;
    var ks := Triggered(links, MAX_LINKS, mode, evt);
    assert l.id in ks <==> LinkMatches(links[l.id], mode, evt);
  }

  /** Over the wire: after an accepted SET_LINKAGE frame and any run that does not set or delete the
      linkage, an event of the device, if it is online, queues the frame's command exactly if it is
      the frame's event. */
  lemma {:induction false} LinkageFrame(b: BoxState, buf: bytes, steps: seq<Step>, evt: Event)
    requires Inv(b) && SlotRequest(buf) && buf[0] == 0x53 && buf[1] == 0x88
    requires Dealt(b.reg, buf).1 == ResultFrame(Ok) && |buf| >= 32
    requires var c := b.(reg := Dealt(b.reg, buf).0);
      && ValidRun(c, steps) && Ceiling(c.reg.nextId) + Allocations(c, steps) <= U32
      && LinkIn(buf).id < MAX_LINKS && Undisturbed(c, steps, evt.devid, LinkRecord(LinkIn(buf)))
      && IsOnline(Run(c, steps), evt.devid)
    requires evt.devid == Le32(buf, 4)
    ensures AnswersAsFramed(Run(b.(reg := Dealt(b.reg, buf).0), steps), buf, evt)
  {
    RequestBytes(buf);
    FrameTarget(buf);
    LinkFields(buf);
    hide Inv, AllHold, Undisturbed, Run, ValidRun, Allocations, Dealt, SlotRequest, ResultFrame, AnswersAsFramed;
    AcceptedHolds(b, buf, LinkSlot, steps);
    hide LinkIn, Le16, Le32, IsOnline, RequestOf, DevidOf;
    LinkageAnswers(Run(b.(reg := Dealt(b.reg, buf).0), steps), buf, evt);
  }

  /** After an accepted SET frame and an undisturbed run the record is held, and the box is sound. */
  lemma {:induction false} AcceptedHolds(b: BoxState, buf: bytes, kind: SlotKind, steps: seq<Step>)
    requires Inv(b) && SlotRequest(buf) && RequestOf(buf) == Set(kind) && Dealt(b.reg, buf).1 == ResultFrame(Ok)
    requires var c, v := b.(reg := Dealt(b.reg, buf).0), ParseRecord(kind, BodyOf(buf, kind));
      && ValidRun(c, steps) && Ceiling(c.reg.nextId) + Allocations(c, steps) <= U32
      && RecordId(v) < SlotCount(kind) && Undisturbed(c, steps, DevidOf(buf), v)
    ensures var e, v := Run(b.(reg := Dealt(b.reg, buf).0), steps), ParseRecord(kind, BodyOf(buf, kind));
      Inv(e) && RecordId(v) < SlotCount(kind) && AllHold(e, DevidOf(buf), v)
  {
    var id, v := DevidOf(buf), ParseRecord(kind, BodyOf(buf, kind));
    hide Inv, AllHold, Undisturbed, ParseRecord, SlotSet;
    ResultCodes(SlotSet(b.reg, id, v).1);
    var s := SetRecord(id, v);
    var c := Apply(b, s);
    assert c == b.(reg := Dealt(b.reg, buf).0);
    SetHolds(b, id, v);
    StepInv(b, s);
    StepNextId(b, s);
    HoldRun(c, steps, id, v);
    RunInv(c, steps);
  }

  // ---------------------------------------------------------------- timers

  /** The command of a SET_TIMER frame, on the timer's own device. */
  predicate TimerFrameCommand(cmd: Command, buf: bytes)
    requires |buf| >= 24
  {
    && (cmd.DoAction? <==> buf[11] % 2 == 1) && (cmd.DoAction? || cmd.SetStatus?)
    && cmd.devid == Le32(buf, 4)
    && (cmd.DoAction? ==> cmd.id == Le16(buf, 16) && cmd.param1 == Le16(buf, 18) && cmd.param2 == Le32(buf, 20))
    && (cmd.SetStatus? ==> |cmd.pairs| == 1 && cmd.pairs[0].0 == Le16(buf, 16) && cmd.pairs[0].1 == Le16(buf, 18))
  }

  lemma {:induction false} TimerCommandIs(buf: bytes, id: u32)
    requires |buf| >= 24 && id == Le32(buf, 4)
    ensures TimerFrameCommand(TimerCommand(id, TimerIn(buf)), buf)
  {
    TimerFields(buf);
    hide Le16, Le32, TimerIn;
  }

  /** A SET_TIMER frame's timer is one-shot exactly if the highest bit of its weekday byte is set. */
  lemma {:induction false} TimerOneShot(buf: bytes)
    requires |buf| >= 24
    ensures OneShot(TimerIn(buf)) <==> buf[15] >= 128
  {
    TimerFields(buf);
    BitIsDigit(buf[15], 7);
    assert Pow2(7) == 128;
  }

  /** An accepted SET_TIMER frame leaves its timer active and armed, even if the slot had fired. */
  lemma {:induction false} SetTimerArms(b: BoxState, buf: bytes)
    requires Inv(b) && SlotRequest(buf) && RequestOf(buf) == Set(TimerSlot) && Dealt(b.reg, buf).1 == ResultFrame(Ok)
    ensures TimerIn(buf).id < MAX_TIMERS
    ensures AllHave(b.(reg := Dealt(b.reg, buf).0), DevidOf(buf), TimerIn(buf).id, Slot(TimerIn(buf), true, false))
  {
    var id, t := DevidOf(buf), TimerIn(buf);
    ResultCodes(SlotSet(b.reg, id, TimerRecord(t)).1);
    var i := IndexOf(b.reg.online, id);
    OnlyOne(b, i);
    hide Inv, TimerIn;
    var r := Dealt(b.reg, buf).0;
    assert r == SlotSet(b.reg, id, TimerRecord(t)).0;
    forall j | 0 <= j < |r.online| ensures Has(r.online[j], id, t.id, Slot(t, true, false)) {
      assert j != i ==> r.online[j] == b.reg.online[j];
    }
  }

  /** Over the wire: after an accepted SET_TIMER frame and any run that does not disturb the timer,
      each sweep it fires in queues, at its slot's place among the actions of its device, the command
      that the frame names. */
  lemma {:induction false} TimerFrame(b: BoxState, buf: bytes, steps: seq<Step>, s: Step, i: nat)
    requires Inv(b) && SlotRequest(buf) && buf[0] == 0x33 && buf[1] == 0x88 && |buf| >= 24
    requires Dealt(b.reg, buf).1 == ResultFrame(Ok)
    requires var c := b.(reg := Dealt(b.reg, buf).0);
      && ValidRun(c, steps) && Ceiling(c.reg.nextId) + Allocations(c, steps) <= U32
      && TimerIn(buf).id < MAX_TIMERS && Undisturbed(c, steps, DevidOf(buf), TimerRecord(TimerIn(buf)))
      && Enabled(Run(c, steps), s) && s.Tick? && i < |Run(c, steps).reg.online|
      && Run(c, steps).reg.online[i].id == DevidOf(buf)
    ensures var e := Run(b.(reg := Dealt(b.reg, buf).0), steps); var d := e.reg.online[i];
      var ks := FiringSlots(d, MAX_TIMERS, e.reg.workMode, PrevSec(e.reg.secToday, s.clocks, i), s.clocks[i]);
      && TimerIn(buf).id == Le16(buf, 8) && |DeviceCommands(e.reg, s.clocks, i)| == |ks|
      && (FiresAt(e, s, DevidOf(buf), TimerIn(buf).id, i) <==> Le16(buf, 8) in ks)
      && forall p :: 0 <= p < |ks| && ks[p] == Le16(buf, 8) ==>
        TimerFrameCommand(DeviceCommands(e.reg, s.clocks, i)[p], buf)
  {
    RequestBytes(buf);
    FrameTarget(buf);
    TimerFields(buf);
    var id, t := DevidOf(buf), TimerIn(buf);
    AcceptedHolds(b, buf, TimerSlot, steps);
    var e := Run(b.(reg := Dealt(b.reg, buf).0), steps);
    assert ((d: Dev) => Holds(d, id, TimerRecord(t)))(e.reg.online[i]);
    TimerCommandIs(buf, id);
    hide Inv, AllHold, Undisturbed, TimerIn, Le16, Le32, Run, ValidRun;
    hide FiringSlots, FiresAt, DeviceCommands, TimerCommand;
    FiringIsQueued(e, s, id, t.id, i);
  }
}
