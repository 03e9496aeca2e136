/** The synchronous slot requests of `deal_tcp_packet`: set, get and delete timers, delays and
    linkages over the wire, and what a client reads back after writing. */
module Requests {
  import opened Device
  import opened Registry
  import opened DeviceControl
  import opened Box
  import opened BoxRuns
  import opened Timers
  import opened Wire

  const CMD_RESULT: u16 := 0x88A1

  datatype Request = Set(kind: SlotKind) | Get(kind: SlotKind) | Delete(kind: SlotKind) | Other

  function Classify(cmd: u16): Request {
    if cmd == 0x8831 then Get(TimerSlot) else if cmd == 0x8833 then Set(TimerSlot)
    else if cmd == 0x8834 then Delete(TimerSlot)
    else if cmd == 0x8841 then Get(DelaySlot) else if cmd == 0x8843 then Set(DelaySlot)
    else if cmd == 0x8844 then Delete(DelaySlot)
    else if cmd == 0x8851 then Get(LinkSlot) else if cmd == 0x8853 then Set(LinkSlot)
    else if cmd == 0x8854 then Delete(LinkSlot)
    else Other
  }

  function GetResponse(kind: SlotKind): u16 {
    match kind
    case TimerSlot => 0x8832
    case DelaySlot => 0x8842
    case LinkSlot => 0x8852
  }

  function ErrorCode(e: Error): u16 {
    match e
    case Ok => 0
    case InvalidMsg => 1
    case NotSupported => 2
    case BadParam => 3
    case EntryNotFound => 6
    case ActFailed => 7
    case Others => 8
  }

  function Header(cmd: u16, length: u16): (h: bytes)
    ensures |h| == 4
  {
    U16(cmd) + U16(length)
  }

  function ResultFrame(e: Error): (f: bytes)
    ensures |f| == 8
  {
    Header(CMD_RESULT, 8) + U16(ErrorCode(e)) + [0, 0]
  }

  function RecordFrame(devid: u32, v: Record): bytes {
    Header(GetResponse(KindOf(v)), 4 + BodyLength(KindOf(v))) + Body(devid, v)
  }

  // A request is read from the receive buffer, from where its frame starts to the buffer's end.

  function RequestOf(buf: bytes): Request
    requires |buf| >= 4
  {
    Classify(GetU16(buf[..2]))
  }

  function DevidOf(buf: bytes): u32
    requires |buf| >= 10
  {
    GetU32(buf[4..8])
  }

  function SlotOf(buf: bytes): u16
    requires |buf| >= 10
  {
    GetU16(buf[8..10])
  }

  function BodyOf(buf: bytes, kind: SlotKind): bytes
    requires |buf| >= 4 + BodyLength(kind)
  {
    buf[4..4 + BodyLength(kind)]
  }

  /** A slot request, with all the bytes that dealing with it reads. */
  predicate SlotRequest(buf: bytes) {
    && |buf| >= 4
    && match RequestOf(buf)
       case Set(kind) => |buf| >= 4 + BodyLength(kind)
       case Get(_) => |buf| >= 10
       case Delete(_) => |buf| >= 10
       case Other => false
  }

  /** The registry and the reply after a slot request. */
  function Dealt(r: Reg, buf: bytes): (Reg, bytes)
    requires SlotRequest(buf)
  {
    match RequestOf(buf)
    case Set(kind) =>
      var (r', e) := SlotSet(r, DevidOf(buf), ParseRecord(kind, BodyOf(buf, kind)));
      (r', ResultFrame(e))
    case Delete(kind) =>
      var (r', e) := SlotDeleted(r, DevidOf(buf), kind, SlotOf(buf));
      (r', ResultFrame(e))
    case Get(kind) =>
      match SlotGot(r, DevidOf(buf), kind, SlotOf(buf))
      case Missing => (r, ResultFrame(BadParam))
      case Found(v) => (r, RecordFrame(DevidOf(buf), v))
  }

  // ---------------------------------------------------------------- the reply buffer

  /** `_reply_result`, on a cleared buffer. */
  method ReplyResult(buf: array<u8>, e: Error) returns (len: nat)
    requires buf.Length >= 8 && buf[6] == 0 && buf[7] == 0
    modifies buf
    ensures len == 8 && buf[..len] == ResultFrame(e)
  {
    hide U16, Header, ErrorCode;
    len := 8;
    Put(buf, 0, Header(CMD_RESULT, len));
    Put(buf, 4, U16(ErrorCode(e)));
    assert buf[..6] == Header(CMD_RESULT, 8) + U16(ErrorCode(e));
    assert buf[..8] == buf[..6] + [buf[6], buf[7]];
  }

  method ReplyEventFields(buf: array<u8>, at: nat, id: u16, param1: u16, param2: u32)
    requires at + 8 <= buf.Length
    modifies buf
    ensures buf[..at + 8] == old(buf[..at]) + EventFields(id, param1, param2)
  {
    hide U16, U32Bytes;
    Put(buf, at, U16(id));
    Put(buf, at + 2, U16(param1));
    Put(buf, at + 4, U32Bytes(param2));
  }

  /** The common start of a slot reply: header, device id, slot id. */
  method ReplyStart(buf: array<u8>, cmd: u16, len: u16, devid: u32, id: u16)
    requires buf.Length >= 32
    modifies buf
    ensures buf[..10] == Header(cmd, len) + U32Bytes(devid) + U16(id)
  {
    hide U16, U32Bytes, Header;
    Put(buf, 0, Header(cmd, len));
    assert buf[..4] == Header(cmd, len);
    Put(buf, 4, U32Bytes(devid));
    Put(buf, 8, U16(id));
  }

  /** `_reply_get_timer`. */
  method ReplyGetTimer(buf: array<u8>, devid: u32, t: Timer) returns (len: nat)
    requires buf.Length >= 32
    modifies buf
    ensures len == 24 && buf[..len] == RecordFrame(devid, TimerRecord(t))
  {
    hide U16, U32Bytes, Header, EventFields;
    len := 24;
    ReplyStart(buf, GetResponse(TimerSlot), len, devid, t.id);
    ghost var start := buf[..10];
    Put(buf, 10, [t.workMode]);
    Put(buf, 11, [t.flag]);
    Put(buf, 12, [t.hour]);
    Put(buf, 13, [t.min]);
    Put(buf, 14, [t.sec]);
    Put(buf, 15, [t.wday]);
    assert buf[..16] == start + [t.workMode, t.flag, t.hour, t.min, t.sec, t.wday];
    ReplyEventFields(buf, 16, t.actId, t.actParam1, t.actParam2);
    JoinTimer(Header(0x8832, 24), U32Bytes(devid), U16(t.id), [t.workMode, t.flag, t.hour, t.min, t.sec, t.wday],
              EventFields(t.actId, t.actParam1, t.actParam2));
  }

  lemma {:induction false} JoinTimer(h: bytes, d: bytes, i: bytes, f: bytes, e: bytes)
    ensures ((h + d + i) + f) + e == h + (d + (i + f) + e)
  {
  }

  /** `_reply_get_delay`. */
  method ReplyGetDelay(buf: array<u8>, devid: u32, y: Delay) returns (len: nat)
    requires buf.Length >= 32
    modifies buf
    ensures len == 32 && buf[..len] == RecordFrame(devid, DelayRecord(y))
  {
    hide U16, U32Bytes, Header, EventFields;
    len := 32;
    ReplyStart(buf, GetResponse(DelaySlot), len, devid, y.id);
    ghost var start := buf[..10];
    Put(buf, 10, [y.workMode]);
    Put(buf, 11, [y.flag]);
    assert buf[..12] == start + [y.workMode, y.flag];
    ReplyEventFields(buf, 12, y.evtId, y.evtParam1, y.evtParam2);
    ReplyEventFields(buf, 20, y.actId, y.actParam1, y.actParam2);
    Put(buf, 28, U32Bytes(y.delaySec));
    JoinDelay(Header(0x8842, 32), U32Bytes(devid), U16(y.id), [y.workMode, y.flag],
              EventFields(y.evtId, y.evtParam1, y.evtParam2), EventFields(y.actId, y.actParam1, y.actParam2),
              U32Bytes(y.delaySec));
  }

  lemma {:induction false} JoinDelay(h: bytes, d: bytes, i: bytes, f: bytes, e: bytes, a: bytes, x: bytes)
    ensures ((((h + d + i) + f) + e) + a) + x == h + (d + (i + f) + e + a + x)
  {
  }

  /** `_reply_get_linkage`. */
  method ReplyGetLinkage(buf: array<u8>, devid: u32, l: Linkage) returns (len: nat)
    requires buf.Length >= 32
    modifies buf
    ensures len == 32 && buf[..len] == RecordFrame(devid, LinkRecord(l))
  {
    hide U16, U32Bytes, Header, EventFields;
    len := 32;
    ReplyStart(buf, GetResponse(LinkSlot), len, devid, l.id);
    ghost var start := buf[..10];
    Put(buf, 10, [l.workMode]);
    Put(buf, 11, [l.flag]);
    assert buf[..12] == start + [l.workMode, l.flag];
    ReplyEventFields(buf, 12, l.evtId, l.evtParam1, l.evtParam2);
    Put(buf, 20, U32Bytes(l.actDevid));
    ReplyEventFields(buf, 24, l.actId, l.actParam1, l.actParam2);
    JoinDelay(Header(0x8852, 32), U32Bytes(devid), U16(l.id), [l.workMode, l.flag],
              EventFields(l.evtId, l.evtParam1, l.evtParam2), U32Bytes(l.actDevid),
              EventFields(l.actId, l.actParam1, l.actParam2));
  }

  /** The slot requests of `deal_tcp_packet`. */
  method DealSlotRequest(cb: ControlBlock, buf: bytes, reply: array<u8>) returns (rlen: nat)
    requires SlotRequest(buf) && reply.Length == 1024
    modifies cb, reply
    ensures rlen <= 1024 && (cb.State(), reply[..rlen]) == Dealt(old(cb.State()), buf)
  {
    hide ResultFrame, RecordFrame, SlotSet, SlotDeleted, SlotGot, ParseRecord, Classify, GetU32, GetU16;
    ClearBuffer(reply);
    var devid := DevidOf(buf);
    match RequestOf(buf) {
      case Set(kind) =>
        var e := cb.SetDevSlot(devid, ParseRecord(kind, BodyOf(buf, kind)));
        rlen := ReplyResult(reply, e);
      case Delete(kind) =>
        var e := cb.DelDevSlot(devid, kind, SlotOf(buf));
        rlen := ReplyResult(reply, e);
      case Get(kind) =>
        var got := cb.GetDevSlot(devid, kind, SlotOf(buf));
        match got {
          case Missing => rlen := ReplyResult(reply, BadParam);
          case Found(TimerRecord(t)) => rlen := ReplyGetTimer(reply, devid, t);
          case Found(DelayRecord(y)) => rlen := ReplyGetDelay(reply, devid, y);
          case Found(LinkRecord(l)) => rlen := ReplyGetLinkage(reply, devid, l);
        }
    }
  }

  method ClearBuffer(reply: array<u8>)
    modifies reply
    ensures forall i :: 0 <= i < reply.Length ==> reply[i] == 0
  {
    for i := 0 to reply.Length
      invariant forall j :: 0 <= j < i ==> reply[j] == 0
    {
      reply[i] := 0;
    }
  }

  // ---------------------------------------------------------------- read your write

  /** Wherever the device is, the slot is active and holds this record. */
  predicate Holds(d: Dev, id: u32, v: Record)
    requires RecordId(v) < SlotCount(KindOf(v))
  {
    d.id == id ==> IsActive(d, KindOf(v), RecordId(v)) && RecordAt(d, KindOf(v), RecordId(v)) == v
  }

  ghost predicate AllHold(b: BoxState, id: u32, v: Record)
    requires RecordId(v) < SlotCount(KindOf(v))
  {
    All(b.reg, (d: Dev) => Holds(d, id, v))
  }

  /** The step sets or deletes the slot, or fires and thereby clears the one-shot timer in it. */
  ghost predicate Disturbs(b: BoxState, s: Step, id: u32, v: Record)
    requires Enabled(b, s)
  {
    || (s.SetRecord? && s.id == id && KindOf(s.v) == KindOf(v) && RecordId(s.v) == RecordId(v))
    || (s.DeleteRecord? && s.id == id && s.kind == KindOf(v) && s.k == RecordId(v))
    || (v.TimerRecord? && OneShot(v.timer) && v.timer.id < MAX_TIMERS && FiresEver(b, s, id, v.timer.id))
  }

  ghost predicate Undisturbed(b: BoxState, steps: seq<Step>, id: u32, v: Record)
    requires ValidRun(b, steps)
    decreases |steps|
  {
    steps == [] || (!Disturbs(b, steps[0], id, v) && Undisturbed(Apply(b, steps[0]), steps[1..], id, v))
  }

  lemma {:induction false} TickHolds(b: BoxState, s: Step, id: u32, v: Record, i: nat)
    requires Enabled(b, s) && s.Tick? && i < |b.reg.online| && RecordId(v) < SlotCount(KindOf(v))
    requires !Disturbs(b, s, id, v) && Holds(b.reg.online[i], id, v)
    ensures Holds(EditedAt(b, s, i), id, v)
  {
    var d := b.reg.online[i];
    if d.id == id && v.TimerRecord? {
      var k := v.timer.id;
      if FiresAt(b, s, id, k, i) {
        assert FiresEver(b, s, id, k);
      }
    }
  }

  lemma {:induction false} HoldStep(b: BoxState, s: Step, id: u32, v: Record)
    requires Enabled(b, s) && RecordId(v) < SlotCount(KindOf(v)) && 0 < id < Ceiling(b.reg.nextId)
    requires AllHold(b, id, v) && !Disturbs(b, s, id, v)
    ensures AllHold(Apply(b, s), id, v)
  {
    hide Apply, Ticked;
    var p := (d: Dev) => Holds(d, id, v);
    if Edits(s) {
      forall i | 0 <= i < |b.reg.online| ensures p(EditedAt(b, s, i)) {
        assert p(b.reg.online[i]);
        if s.Tick? {
          TickHolds(b, s, id, v, i);
        }
      }
    }
    StepAll(b, s, p);
  }

  lemma {:induction false} HoldRun(b: BoxState, steps: seq<Step>, id: u32, v: Record)
    requires Inv(b) && ValidRun(b, steps) && Ceiling(b.reg.nextId) + Allocations(b, steps) <= U32
    requires RecordId(v) < SlotCount(KindOf(v)) && 0 < id < Ceiling(b.reg.nextId)
    requires AllHold(b, id, v) && Undisturbed(b, steps, id, v)
    ensures AllHold(Run(b, steps), id, v)
    decreases |steps|
  {
    hide Apply, AllHold, Disturbs, Inv;
    if steps != [] {
      StepInv(b, steps[0]);
      StepNextId(b, steps[0]);
      HoldStep(b, steps[0], id, v);
      HoldRun(Apply(b, steps[0]), steps[1..], id, v);
    }
  }

  /** An accepted SET leaves the record in the slot of the only device with that id. */
  lemma {:induction false} SetHolds(b: BoxState, id: u32, v: Record)
    requires Inv(b) && SlotSet(b.reg, id, v).1 == Ok
    ensures RecordId(v) < SlotCount(KindOf(v)) && 0 < id < Ceiling(b.reg.nextId)
    ensures AllHold(Apply(b, SetRecord(id, v)), id, v)
  {
    var i := IndexOf(b.reg.online, id);
    assert Known(b.reg.online[i], b.reg.nextId);
    forall j | 0 <= j < |b.reg.online| && j != i ensures b.reg.online[j].id != id {
      assert j < i ==> Apart(b.reg.online[j], b.reg.online[i]);
      assert i < j ==> Apart(b.reg.online[i], b.reg.online[j]);
    }
    forall j | 0 <= j < |b.reg.offline| ensures b.reg.offline[j].id != id {
      assert Apart(b.reg.online[i], b.reg.offline[j]);
    }
  }

  lemma {:induction false} GetHeld(b: BoxState, id: u32, v: Record)
    requires RecordId(v) < SlotCount(KindOf(v)) && AllHold(b, id, v)
    requires IndexOf(b.reg.online, id) < |b.reg.online|
    ensures SlotGot(b.reg, id, KindOf(v), RecordId(v)) == Found(v)
  {
    assert ((d: Dev) => Holds(d, id, v))(b.reg.online[IndexOf(b.reg.online, id)]);
  }

  lemma {:induction false} ParsedFields(buf: bytes, kind: SlotKind)
    requires |buf| >= 4 + BodyLength(kind)
    ensures DevidOf(buf) == ParseDevid(BodyOf(buf, kind))
    ensures SlotOf(buf) == RecordId(ParseRecord(kind, BodyOf(buf, kind)))
  {
    var b := BodyOf(buf, kind);
    assert b[4] == buf[8] && b[5] == buf[9];
    assert b[..4] == buf[4..8] && b[4..6] == [b[4], b[5]] && buf[8..10] == [buf[8], buf[9]];
  }

  /** After an accepted SET frame, a GET for the same slot answers with the same bytes from offset
      4 on, through every run that does not set, delete or one-shot-clear the slot, whenever the
      device is online again. */
  lemma {:induction false} ReadYourWrite(b: BoxState, setBuf: bytes, kind: SlotKind, steps: seq<Step>, getBuf: bytes)
    requires Inv(b) && SlotRequest(setBuf) && SlotRequest(getBuf)
    requires RequestOf(setBuf) == Set(kind) && RequestOf(getBuf) == Get(kind)
    requires DevidOf(getBuf) == DevidOf(setBuf) && SlotOf(getBuf) == SlotOf(setBuf)
    requires Dealt(b.reg, setBuf).1 == ResultFrame(Ok)
    requires var c := b.(reg := Dealt(b.reg, setBuf).0);
      && ValidRun(c, steps) && Ceiling(c.reg.nextId) + Allocations(c, steps) <= U32
      && Undisturbed(c, steps, DevidOf(setBuf), ParseRecord(kind, BodyOf(setBuf, kind)))
      && IndexOf(Run(c, steps).reg.online, DevidOf(setBuf)) < |Run(c, steps).reg.online|
    ensures var e := Run(b.(reg := Dealt(b.reg, setBuf).0), steps);
      Dealt(e.reg, getBuf).1 == RecordFrame(DevidOf(setBuf), ParseRecord(kind, BodyOf(setBuf, kind)))
      && Dealt(e.reg, getBuf).1[4..] == BodyOf(setBuf, kind)
  {
    hide Inv, AllHold, Undisturbed, ParseRecord, Body, Header, SlotSet, SlotGot, Classify, GetU16, GetU32, IndexOf;
    var id, v := DevidOf(setBuf), ParseRecord(kind, BodyOf(setBuf, kind));
    ResultCodes(SlotSet(b.reg, id, v).1);
    var s := SetRecord(id, v);
    var c := Apply(b, s);
    assert c == b.(reg := Dealt(b.reg, setBuf).0);
    SetHolds(b, id, v);
    StepInv(b, s);
    StepNextId(b, s);
    HoldRun(c, steps, id, v);
    var e := Run(c, steps);
    GetHeld(e, id, v);
    ParsedFields(setBuf, kind);
    BodyOfParsed(kind, BodyOf(setBuf, kind));
  }

  /** Different results make different frames. */
  lemma {:induction false} ResultCodes(e: Error)
    ensures ResultFrame(e) == ResultFrame(Ok) ==> e == Ok
  {
    assert ResultFrame(e)[4] == ErrorCode(e) % 256 && ResultFrame(Ok)[4] == 0;
  }
}
