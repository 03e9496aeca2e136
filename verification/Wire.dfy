/** Little-endian frames of `core_daemon/network.c` and the driver messages: fields, slot records
    and status lists. */
module Wire {
  import opened Device
  import opened Registry

  type bytes = seq<u8>

  // ---------------------------------------------------------------- fields

  function U16(v: u16): (b: bytes)
    ensures |b| == 2
  {
    [v % 256, v / 256]
  }

  function U32Bytes(v: u32): (b: bytes)
    ensures |b| == 4
  {
    U16(v % 65536) + U16(v / 65536)
  }

  function GetU16(b: bytes): u16
    requires |b| == 2
  {
    var lo: int, hi: int := b[0], b[1];
    lo + 256 * hi
  }

  function GetU32(b: bytes): u32
    requires |b| == 4
  {
    var lo: int, hi: int := GetU16(b[..2]), GetU16(b[2..]);
    lo + 65536 * hi
  }

  lemma {:induction false} U16Get(b: bytes)
    requires |b| == 2
    ensures U16(GetU16(b)) == b
  {
  }

  lemma {:induction false} GetOfU16(v: u16)
    ensures GetU16(U16(v)) == v
  {
  }

  lemma {:induction false} U32Get(b: bytes)
    requires |b| == 4
    ensures U32Bytes(GetU32(b)) == b
  {
    var lo: int, hi: int := GetU16(b[..2]), GetU16(b[2..]);
    assert (lo + 65536 * hi) % 65536 == lo && (lo + 65536 * hi) / 65536 == hi;
    U16Get(b[..2]);
    U16Get(b[2..]);
  }

  lemma {:induction false} GetOfU32(v: u32)
    ensures GetU32(U32Bytes(v)) == v
  {
    GetOfU16(v % 65536);
    GetOfU16(v / 65536);
    assert U32Bytes(v)[..2] == U16(v % 65536) && U32Bytes(v)[2..] == U16(v / 65536);
  }

  /** `SET_CMD_FIELD` with a field of one, two or four bytes. */
  method Put(buf: array<u8>, at: nat, b: bytes)
    requires at + |b| <= buf.Length
    modifies buf
    ensures buf[..at + |b|] == old(buf[..at]) + b
    ensures forall i :: at + |b| <= i < buf.Length ==> buf[i] == old(buf[i])
  {
    for i := 0 to |b|
      invariant forall j :: 0 <= j < i ==> buf[at + j] == b[j]
      invariant forall j :: 0 <= j < buf.Length && !(at <= j < at + i) ==> buf[j] == old(buf[j])
    {
      buf[at + i] := b[i];
    }
  }

  // ---------------------------------------------------------------- slot records

  function BodyLength(kind: SlotKind): nat {
    match kind
    case TimerSlot => 20
    case DelaySlot => 28
    case LinkSlot => 28
  }

  /** The event fields that delays and linkages share. */
  function EventFields(id: u16, param1: u16, param2: u32): (b: bytes)
    ensures |b| == 8
  {
    U16(id) + U16(param1) + U32Bytes(param2)
  }

  /** A slot record on the wire, from offset 4 of its frame: device id, slot id, fields. */
  function Body(devid: u32, v: Record): (b: bytes)
    ensures |b| == BodyLength(KindOf(v))
  {
    match v
    case TimerRecord(t) =>
      U32Bytes(devid) + (U16(t.id) + [t.workMode, t.flag, t.hour, t.min, t.sec, t.wday])
      + EventFields(t.actId, t.actParam1, t.actParam2)
    case DelayRecord(y) =>
      U32Bytes(devid) + (U16(y.id) + [y.workMode, y.flag]) + EventFields(y.evtId, y.evtParam1, y.evtParam2)
      + EventFields(y.actId, y.actParam1, y.actParam2) + U32Bytes(y.delaySec)
    case LinkRecord(l) =>
      U32Bytes(devid) + (U16(l.id) + [l.workMode, l.flag]) + EventFields(l.evtId, l.evtParam1, l.evtParam2)
      + U32Bytes(l.actDevid) + EventFields(l.actId, l.actParam1, l.actParam2)
  }

  function ParseDevid(b: bytes): u32
    requires |b| >= 4
  {
    GetU32(b[..4])
  }

  /** The record a SET frame carries; every field is read at its own offset. */
  function ParseRecord(kind: SlotKind, b: bytes): (v: Record)
    requires |b| == BodyLength(kind)
    ensures KindOf(v) == kind
  {
    match kind
    case TimerSlot => TimerRecord(Timer(
      GetU16(b[4..6]), b[6], b[7], b[8], b[9], b[10], b[11], GetU16(b[12..14]), GetU16(b[14..16]), GetU32(b[16..20])))
    case DelaySlot => DelayRecord(Delay(
      GetU16(b[4..6]), b[6], b[7], GetU16(b[8..10]), GetU16(b[10..12]), GetU32(b[12..16]),
      GetU16(b[16..18]), GetU16(b[18..20]), GetU32(b[20..24]), GetU32(b[24..28])))
    case LinkSlot => LinkRecord(Linkage(
      GetU16(b[4..6]), b[6], b[7], GetU16(b[8..10]), GetU16(b[10..12]), GetU32(b[12..16]),
      GetU32(b[16..20]), GetU16(b[20..22]), GetU16(b[22..24]), GetU32(b[24..28])))
  }

  lemma {:induction false} EventFieldsParsed(b: bytes, o: nat)
    requires o + 8 <= |b|
    ensures EventFields(GetU16(b[o..o + 2]), GetU16(b[o + 2..o + 4]), GetU32(b[o + 4..o + 8])) == b[o..o + 8]
  {
    hide U16, U32Bytes, GetU16, GetU32;
    U16Get(b[o..o + 2]);
    U16Get(b[o + 2..o + 4]);
    U32Get(b[o + 4..o + 8]);
  }

  /** Writing out what was parsed gives the same bytes. */
  lemma {:induction false} BodyOfParsed(kind: SlotKind, b: bytes)
    requires |b| == BodyLength(kind)
    ensures Body(ParseDevid(b), ParseRecord(kind, b)) == b
  {
    hide U16, U32Bytes, GetU16, GetU32, EventFields;
    U32Get(b[..4]);
    U16Get(b[4..6]);
    match kind
    case TimerSlot =>
      EventFieldsParsed(b, 12);
      assert b == b[..4] + (b[4..6] + [b[6], b[7], b[8], b[9], b[10], b[11]]) + b[12..20];
    case DelaySlot =>
      EventFieldsParsed(b, 8);
      EventFieldsParsed(b, 16);
      U32Get(b[24..28]);
      assert b == b[..4] + (b[4..6] + [b[6], b[7]]) + b[8..16] + b[16..24] + b[24..28];
    case LinkSlot =>
      EventFieldsParsed(b, 8);
      U32Get(b[16..20]);
      EventFieldsParsed(b, 20);
      assert b == b[..4] + (b[4..6] + [b[6], b[7]]) + b[8..16] + b[16..20] + b[20..28];
  }

  lemma {:induction false} EventFieldsAt(b: bytes, o: nat, id: u16, param1: u16, param2: u32)
    requires o + 8 <= |b| && b[o..o + 8] == EventFields(id, param1, param2)
    ensures GetU16(b[o..o + 2]) == id && GetU16(b[o + 2..o + 4]) == param1 && GetU32(b[o + 4..o + 8]) == param2
  {
    hide GetU16, GetU32;
    var e := EventFields(id, param1, param2);
    var a, p2 := U16(id) + U16(param1), U32Bytes(param2);
    assert e == a + p2 && |a| == 4 && |p2| == 4;
    forall i | 0 <= i < 4 ensures e[4 + i] == p2[i] && e[i] == a[i] {
    }
    assert e[..2] == U16(id) && e[2..4] == U16(param1) && e[4..8] == p2;
    assert b[o..o + 2] == b[o..o + 8][..2] && b[o + 2..o + 4] == b[o..o + 8][2..4];
    assert b[o + 4..o + 8] == b[o..o + 8][4..8];
    GetOfU16(id);
    GetOfU16(param1);
    GetOfU32(param2);
  }

  /** Parsing what was written gives the same record. */
  lemma {:induction false} ParsedOfBody(devid: u32, v: Record)
    ensures ParseDevid(Body(devid, v)) == devid && ParseRecord(KindOf(v), Body(devid, v)) == v
  {
    hide U16, U32Bytes, GetU16, GetU32, EventFields;
    var b := Body(devid, v);
    assert b[..4] == U32Bytes(devid) && b[4..6] == U16(RecordId(v));
    GetOfU32(devid);
    GetOfU16(RecordId(v));
    match v
    case TimerRecord(t) =>
      assert b[12..20] == EventFields(t.actId, t.actParam1, t.actParam2);
      EventFieldsAt(b, 12, t.actId, t.actParam1, t.actParam2);
    case DelayRecord(y) =>
      assert b[8..16] == EventFields(y.evtId, y.evtParam1, y.evtParam2);
      assert b[16..24] == EventFields(y.actId, y.actParam1, y.actParam2);
      EventFieldsAt(b, 8, y.evtId, y.evtParam1, y.evtParam2);
      EventFieldsAt(b, 16, y.actId, y.actParam1, y.actParam2);
      assert b[24..28] == U32Bytes(y.delaySec);
      GetOfU32(y.delaySec);
    case LinkRecord(l) =>
      assert b[8..16] == EventFields(l.evtId, l.evtParam1, l.evtParam2);
      assert b[20..28] == EventFields(l.actId, l.actParam1, l.actParam2);
      EventFieldsAt(b, 8, l.evtId, l.evtParam1, l.evtParam2);
      assert b[16..20] == U32Bytes(l.actDevid);
      GetOfU32(l.actDevid);
      EventFieldsAt(b, 20, l.actId, l.actParam1, l.actParam2);
  }
}
