/** The Zigbee driver's context in place: the frames it sends, the messages it did not ask for, and
    the transactions of `Zigbee`. */
module ZigbeeContext {
  import opened Device
  import opened Registry
  import opened Wire
  import opened StatusLists
  import opened Box
  import opened Drivers
  import opened Options
  import opened Zigbee
  import BoxRuns

  // ---------------------------------------------------------------- unsolicited messages

  const CMD_DISCOVER_RESP: u16 := 0x9102
  const CMD_STATUS_CHANGED: u16 := 0x9114
  const CMD_EVENT: u16 := 0x9121
  const DISCOVER_RESP_LEN := 32

  /** `CZ_INFO_T` in a discovery response. */
  function InfoIn(buf: Buffer): CzInfo {
    CzInfo(Field(buf, 20), Field(buf, 22), buf[24..32])
  }

  /** `_event`: a key sets the work mode, the others raise an event of the device. */
  function EventRaised(r: Reg, devid: u32, kind: u16, param: u16, param2: u32): Reg {
    if kind == 0 then Notify(r, Event(devid, EVT_SENSOR_TRIGGERED, param, 0))
    else if kind == 1 then Notify(r, Event(devid, EVT_SENSOR_RECOVERED, param, 0))
    else if kind == 2 then ModeSet(r, param)
    else if kind == 3 then Notify(r, Event(devid, EVT_IR_KEY, param, param2))
    else r
  }

  /** What a frame with transaction id 0 does to the box. */
  function Dispatched(b: BoxState, f: Frame): BoxState {
    var cmd, addr := Field(f.buf, 12), Field(f.buf, 6);
    var i := CzIndexOfAddr(b.cz, addr);
    if cmd == CMD_DISCOVER_RESP then
      if Field(f.buf, 14) != DISCOVER_RESP_LEN then b else CzRegistered(b, addr, Field(f.buf, 8), InfoIn(f.buf))
    else if cmd == CMD_EVENT && i < |b.cz| then
      b.(reg := EventRaised(b.reg, b.cz[i].id, Field(f.buf, 16), Field(f.buf, 18), GetU32(f.buf[20..24])))
    else if cmd == CMD_STATUS_CHANGED && i < |b.cz| then
      b.(reg := Notify(b.reg, Event(b.cz[i].id, EVT_STATUS_UPDATED, Field(f.buf, 16), Field(f.buf, 18))))
    else b
  }

  /** What clients see of an event frame from a listed device: a sensor that is triggered (2) or
      recovers (3), a remote control's key (5) with its four-byte parameter, or a change of the work
      mode (4) by a mode key; keys that are no mode and other kinds do nothing. */
  lemma {:induction false} EventSeen(b: BoxState, f: Frame, i: nat)
    requires Field(f.buf, 12) == 0x9121 && i < |b.cz| && i == CzIndexOfAddr(b.cz, Field(f.buf, 6))
    ensures var b', id, kind, param := Dispatched(b, f), b.cz[i].id, Field(f.buf, 16), Field(f.buf, 18);
      && b' == b.(reg := b'.reg)
      && (kind == 0 ==> b'.reg.events == b.reg.events + [Event(id, 2, param, 0)])
      && (kind == 1 ==> b'.reg.events == b.reg.events + [Event(id, 3, param, 0)])
      && (kind == 2 && param <= 2 ==>
            b'.reg.workMode == param && b'.reg.events == b.reg.events + [Event(0, 4, param, 0)])
      && (kind == 3 ==> b'.reg.events == b.reg.events + [Event(id, 5, param, GetU32(f.buf[20..24]))])
      && (kind != 2 ==> b'.reg.workMode == b.reg.workMode)
      && (kind > 3 || (kind == 2 && param > 2) ==> b' == b)
  {
    hide LinkageCommands, GetU32;
  }

  /** What clients see of a status change of a listed device: its id and value (0). */
  lemma {:induction false} StatusSeen(b: BoxState, f: Frame, i: nat)
    requires Field(f.buf, 12) == 0x9114 && i < |b.cz| && i == CzIndexOfAddr(b.cz, Field(f.buf, 6))
    ensures Dispatched(b, f).reg.events
         == b.reg.events + [Event(b.cz[i].id, 0, Field(f.buf, 16), Field(f.buf, 18))]
  {
    hide LinkageCommands;
  }

  /** Frames of other kinds, or from a device that is not listed, do nothing. */
  lemma {:induction false} OthersIgnored(b: BoxState, f: Frame)
    requires Field(f.buf, 12) != 0x9102
    requires (Field(f.buf, 12) == 0x9121 || Field(f.buf, 12) == 0x9114) ==>
      forall i :: 0 <= i < |b.cz| ==> b.cz[i].shortAddr != Field(f.buf, 6)
    ensures Dispatched(b, f) == b
  {
  }

  /** Every such frame is one step of the box or none, so what holds of every run of the box holds
      whatever frames arrive. */
  lemma {:induction false} DispatchedIsStep(b: BoxState, f: Frame) returns (steps: seq<BoxRuns.Step>)
    ensures |steps| <= 1 && BoxRuns.ValidRun(b, steps) && BoxRuns.Run(b, steps) == Dispatched(b, f)
  {
    hide CzRegistered, Notify, Field, GetU32, BoxRuns.Run;
    var cmd, addr := Field(f.buf, 12), Field(f.buf, 6);
    var i := CzIndexOfAddr(b.cz, addr);
    steps := [];
    EmptyRun(b);
    if cmd == CMD_DISCOVER_RESP {
      if Field(f.buf, 14) == DISCOVER_RESP_LEN {
        steps := [BoxRuns.CzRegister(addr, Field(f.buf, 8), InfoIn(f.buf))];
        OneStep(b, steps[0]);
      }
    } else if i < |b.cz| {
      var id, kind, param := b.cz[i].id, Field(f.buf, 16), Field(f.buf, 18);
      if cmd == CMD_STATUS_CHANGED {
        steps := [BoxRuns.Raise(Event(id, EVT_STATUS_UPDATED, kind, param))];
        OneStep(b, steps[0]);
      } else if cmd == CMD_EVENT && kind < 4 {
        steps := [
          if kind == 0 then BoxRuns.Raise(Event(id, EVT_SENSOR_TRIGGERED, param, 0))
          else if kind == 1 then BoxRuns.Raise(Event(id, EVT_SENSOR_RECOVERED, param, 0))
          else if kind == 2 then BoxRuns.SetMode(param)
          else BoxRuns.Raise(Event(id, EVT_IR_KEY, param, GetU32(f.buf[20..24])))];
        OneStep(b, steps[0]);
      }
    }
  }

  lemma {:induction false} EmptyRun(b: BoxState)
    ensures BoxRuns.ValidRun(b, []) && BoxRuns.Run(b, []) == b
  {
  }

  lemma {:induction false} OneStep(b: BoxState, s: BoxRuns.Step)
    requires BoxRuns.Enabled(b, s)
    ensures BoxRuns.ValidRun(b, [s]) && BoxRuns.Run(b, [s]) == BoxRuns.Apply(b, s)
  {
    hide BoxRuns.Apply, BoxRuns.Enabled;
    assert [s][0] == s && [s][1..] == [];
  }

  // ---------------------------------------------------------------- what is sent

  function FrameHeader(total: u16, kind: u16, addr: u16, endPoint: u16, id: u16): (h: bytes)
    ensures |h| == HEADER_LEN
  {
    U16(MAGIC) + U16(total) + U16(kind) + U16(addr) + U16(endPoint) + U16(id)
  }

  /** The message of a request. */
  function Message(req: Request): (m: bytes)
    requires req.SetRequest? ==> |req.pairs| <= MAX_STATUS
    ensures 4 <= |m| <= 36
  {
    match req
    case SetRequest(pairs) => DriverMessage(CMD_SET_STATUS, pairs)
    case GetRequest(_) => U16(CMD_GET_STATUS) + U16(8) + U32Bytes(0xffff_ffff)
    case ActRequest(id, param1, param2) => U16(CMD_DO_ACTION) + U16(12) + EventFields(id, param1, param2)
  }

  function RequestFrame(d: CzDev, id: u16, req: Request): (f: bytes)
    requires req.SetRequest? ==> |req.pairs| <= MAX_STATUS
    ensures |f| >= 16
  {
    FrameHeader(HEADER_LEN + |Message(req)|, TYPE_UNICAST, d.shortAddr, d.endPoint, id) + Message(req)
  }

  lemma {:induction false} HeaderFields(total: u16, kind: u16, addr: u16, endPoint: u16, id: u16, m: bytes)
    ensures var f := FrameHeader(total, kind, addr, endPoint, id) + m;
      && f[0..2] == [0xAA, 0x55] && Field(f, 2) == total && Field(f, 4) == kind
      && Field(f, 6) == addr && f[6..8] == U16(addr) && Field(f, 8) == endPoint && f[8..10] == U16(endPoint)
      && Field(f, 10) == id && f[12..] == m
  {
    var f := FrameHeader(total, kind, addr, endPoint, id) + m;
    assert f[0..2] == U16(MAGIC) == [0xAA, 0x55];
    hide U16, GetU16;
    assert f[2..4] == U16(total) && f[4..6] == U16(kind) && f[6..8] == U16(addr);
    assert f[8..10] == U16(endPoint) && f[10..12] == U16(id) && f[12..] == m;
    GetOfU16(total);
    GetOfU16(kind);
    GetOfU16(addr);
    GetOfU16(endPoint);
    GetOfU16(id);
  }

  /** The command and the length of a message, and the fields of an action. */
  lemma {:induction false} MessageFields(req: Request)
    requires req.SetRequest? ==> |req.pairs| <= MAX_STATUS
    ensures var m := Message(req);
      && Field(m, 0) == (match req case SetRequest(_) => 0x9113 case GetRequest(_) => 0x9111 case _ => 0x9131)
      && Field(m, 2) == |m|
      && (req.SetRequest? ==> |m| == 4 + 4 * |req.pairs| && ListAt(m, 4, |req.pairs|) == req.pairs)
      && (req.GetRequest? ==> m[4..] == [0xFF, 0xFF, 0xFF, 0xFF])
      && (req.ActRequest? ==> |m| == 12 && Field(m, 4) == req.id && Field(m, 6) == req.param1
                              && GetU32(m[8..12]) == req.param2)
  {
    var m := Message(req);
    match req
    case SetRequest(ps) =>
      hide U16, GetU16, ListBytes, ListAt;
      var a := U16(CMD_SET_STATUS) + U16(4 + 4 * |ps|);
      assert m == a + ListBytes(ps) && a + ListBytes(ps) + [] == m;
      assert m[0..2] == U16(CMD_SET_STATUS) && m[2..4] == U16(4 + 4 * |ps|);
      GetOfU16(CMD_SET_STATUS);
      GetOfU16(4 + 4 * |ps|);
      ListRoundTrip(a, ps, []);
    case GetRequest(_) =>
      assert m[4..] == U32Bytes(0xffff_ffff) == [0xFF, 0xFF, 0xFF, 0xFF];
      assert m[0..2] == U16(CMD_GET_STATUS) && m[2..4] == U16(8);
    case ActRequest(id, param1, param2) =>
      hide U16, GetU16, U32Bytes, GetU32;
      assert m[0..2] == U16(CMD_DO_ACTION) && m[2..4] == U16(12);
      assert m[4..6] == U16(id) && m[6..8] == U16(param1) && m[8..12] == U32Bytes(param2);
      GetOfU16(CMD_DO_ACTION);
      GetOfU16(12);
      GetOfU16(id);
      GetOfU16(param1);
      GetOfU32(param2);
  }

  /** The frame of every request is one that a monitor thread takes: magic number, its own length; it
      goes to the device's short address and end point, carries the transaction id, and its message
      stands from offset 12 on. */
  lemma {:induction false} RequestFields(d: CzDev, id: u16, req: Request)
    requires req.SetRequest? ==> |req.pairs| <= MAX_STATUS
    ensures var f := RequestFrame(d, id, req);
      && |f| == 12 + |Message(req)| && f[12..] == Message(req)
      && f[0..2] == [0xAA, 0x55] && Field(f, 2) == |f| && Field(f, 4) == 0
      && Field(f, 6) == d.shortAddr && Field(f, 8) == d.endPoint && Field(f, 10) == id
      && Field(f, 14) == |f| - 12
  {
    var m := Message(req);
    MessageFields(req);
    hide Message;
    HeaderFields(HEADER_LEN + |m|, TYPE_UNICAST, d.shortAddr, d.endPoint, id, m);
    var f := RequestFrame(d, id, req);
    assert f[14..16] == f[12..][2..4] == m[2..4];
  }

  /** The discovery broadcast, byte by byte: to every node, end point 10, transaction id 0. */
  lemma {:induction false} ProbeBytes()
    ensures FrameHeader(8 + HEADER_LEN, TYPE_BROADCAST, 0xFFFF, 10, 0) + (U16(CMD_DISCOVER) + U16(8))
         == [0xAA, 0x55, 20, 0, 1, 0, 0xFF, 0xFF, 10, 0, 0, 0, 0x01, 0x91, 8, 0]
  {
  }

  ghost predicate NotListed(cz: seq<CzDev>, mac: seq<u8>) {
    forall i :: 0 <= i < |cz| ==> cz[i].info.mac != mac
  }

  /** A device that a discovery response registers is reached at the address it came from: bytes 6 to
      9 of every request to it are those of the response. */
  lemma {:induction false} RegisteredReached(b: BoxState, f: Frame, id: u16, req: Request)
    requires req.SetRequest? ==> |req.pairs| <= MAX_STATUS
    requires Field(f.buf, 12) == 0x9102 && Field(f.buf, 14) == 32
    requires NotListed(b.cz, f.buf[24..32])
    ensures var cz := Dispatched(b, f).cz;
      |cz| == |b.cz| + 1 && RequestFrame(cz[|b.cz|], id, req)[6..10] == f.buf[6..10]
  {
    assert |f.buf| == 256;
    hide *;
    var cz, n := Dispatched(b, f).cz, |b.cz|;
    assert |cz| == n + 1 && cz[n].shortAddr == Field(f.buf, 6) && cz[n].endPoint == Field(f.buf, 8) by {
      RegisteredEntry(b, f);
    }
    AddressBytes(cz[n], id, req);
    FieldBack(f.buf, 6);
    FieldBack(f.buf, 8);
    assert f.buf[6..8] + f.buf[8..10] == f.buf[6..10] by {
      Halves(f.buf);
    }
  }

  lemma {:induction false} Halves(b: bytes)
    requires |b| >= 10
    ensures b[6..8] + b[8..10] == b[6..10]
  {
  }

  lemma {:induction false} FieldBack(b: bytes, o: nat)
    requires o + 2 <= |b|
    ensures U16(Field(b, o)) == b[o..o + 2]
  {
    U16Get(b[o..o + 2]);
  }

  lemma {:induction false} AddressBytes(d: CzDev, id: u16, req: Request)
    requires req.SetRequest? ==> |req.pairs| <= MAX_STATUS
    ensures RequestFrame(d, id, req)[6..10] == U16(d.shortAddr) + U16(d.endPoint)
  {
    HeaderFields(HEADER_LEN + |Message(req)|, TYPE_UNICAST, d.shortAddr, d.endPoint, id, Message(req));
    hide U16, Message, FrameHeader;
    var g := RequestFrame(d, id, req);
    assert g[6..10] == g[6..8] + g[8..10];
  }

  /** The entry and the record of a device that a discovery response registers: short address, end
      point, class, interface and address are those that the response carries. */
  lemma {:induction false} RegisteredEntry(b: BoxState, f: Frame)
    requires Field(f.buf, 12) == 0x9102 && Field(f.buf, 14) == 32
    requires NotListed(b.cz, f.buf[24..32])
    ensures var b', n, m := Dispatched(b, f), |b.cz|, |b.reg.online|;
      && |b'.cz| == n + 1 && |b'.reg.online| == m + 1
      && b'.cz[n].shortAddr == Field(f.buf, 6) && b'.cz[n].endPoint == Field(f.buf, 8)
      && b'.cz[n].id == b'.reg.online[m].id && b'.reg.online[m].driver == 2
      && b'.cz[n].info.mac == b'.reg.online[m].info.mac == f.buf[24..32]
      && (IsNew(b.reg, 2, f.buf[24..32]) ==>
            b'.reg.online[m].info.cls == Field(f.buf, 20) && b'.reg.online[m].info.interface == Field(f.buf, 22))
  {
    hide Field, LinkageCommands;
    assert CzIndexOfMac(b.cz, f.buf[24..32]) == |b.cz|;
    var info := Info(Field(f.buf, 20), Field(f.buf, 22), f.buf[24..32]);
    OnlineNewest(b.reg, CZ_DRIVER, info);
    NewRecord(b.reg, info);
    hide Online;
    assert Dispatched(b, f) == CzRegistered(b, Field(f.buf, 6), Field(f.buf, 8), InfoIn(f.buf));
  }

  lemma {:induction false} NewRecord(r: Reg, info: Info)
    ensures IsNew(r, CZ_DRIVER, info.mac) ==> Online(r, CZ_DRIVER, info).online[|r.online|].info == info
  {
    hide LinkageCommands;
  }

  /** A reply that repeats the id field of the request it answers is taken, unless the id is 0. */
  lemma {:induction false} EchoCompletes(r: Radio, d: CzDev, req: Request, f: Frame)
    requires r.request == None && Whole(f) && (req.SetRequest? ==> |req.pairs| <= MAX_STATUS)
    requires f.buf[10..12] == RequestFrame(d, r.transId, req)[10..12]
    ensures Enabled(Apply(Apply(r, Begin(req)), Recv(f)), Wake) <==> r.transId != 0
  {
    hide U16, GetU16, Message;
    var h := FrameHeader(HEADER_LEN + |Message(req)|, TYPE_UNICAST, d.shortAddr, d.endPoint, r.transId);
    assert RequestFrame(d, r.transId, req)[10..12] == h[10..12] == U16(r.transId);
    GetOfU16(r.transId);
  }

  // ---------------------------------------------------------------- in place

  lemma {:induction false} Join(h: bytes, a: bytes, b: bytes, c: bytes)
    ensures ((h + a) + b) + c == h + (a + b + c)
  {
  }

  /** `HSB_DEVICE_DRIVER_CONTEXT_T`. A request is split where it blocks: the first half sends, the
      second half runs when the wait returns. */
  class Context {
    const drv: ZigbeeDriver
    var isWaiting: bool
    const sendBuf: array<u8>
    const recvBuf: array<u8>
    var sendLen: nat
    var recvLen: nat
    var transId: u16
    var request: Option<Request>
    var signalled: bool

    ghost predicate Ready()
      reads this
    {
      && sendBuf.Length == BUFFER_LEN && recvBuf.Length == BUFFER_LEN && sendBuf != recvBuf
      && sendLen <= BUFFER_LEN
      && (signalled ==> HEADER_LEN < recvLen <= BUFFER_LEN)
    }

    ghost function State(): Radio
      requires Ready()
      reads this, recvBuf
    {
      Radio(isWaiting, transId, recvBuf[..], recvLen, request, signalled)
    }

    /** The device a request goes to. */
    function Target(devid: u32): CzDev
      requires CzIndexOfId(drv.queue, devid) < |drv.queue|
      reads drv
    {
      drv.queue[CzIndexOfId(drv.queue, devid)]
    }

    /** The registry and this driver's queue. */
    ghost function BoxPart(): BoxState
      reads drv, drv.cb
    {
      BoxState(drv.cb.State(), [], drv.queue)
    }

    /** The context as `init_cz_drv` leaves it. */
    constructor (drv: ZigbeeDriver)
      ensures this.drv == drv && Ready() && State() == Initial() && fresh(sendBuf) && fresh(recvBuf)
    {
      this.drv := drv;
      isWaiting := false;
      sendBuf := new u8[BUFFER_LEN](_ => 0);
      recvBuf := new u8[BUFFER_LEN](_ => 0);
      sendLen, recvLen := 0, 0;
      transId := 1;
      request := None;
      signalled := false;
    }

    /** The frame header that every request starts with. */
    method PutHeader(wbuf: array<u8>, total: u16, kind: u16, addr: u16, endPoint: u16, id: u16)
      requires wbuf.Length == 64
      modifies wbuf
      ensures wbuf[..HEADER_LEN] == FrameHeader(total, kind, addr, endPoint, id)
    {
      hide U16;
      Put(wbuf, 0, U16(MAGIC));
      Put(wbuf, 2, U16(total));
      Put(wbuf, 4, U16(kind));
      Put(wbuf, 6, U16(addr));
      Put(wbuf, 8, U16(endPoint));
      Put(wbuf, 10, U16(id));
    }

    /** The message part of `sample_set_status`. */
    method PutSetMessage(wbuf: array<u8>, pairs: seq<Pair>)
      requires wbuf.Length == 64 && |pairs| <= MAX_STATUS
      modifies wbuf
      ensures wbuf[..HEADER_LEN + 4 + 4 * |pairs|] == old(wbuf[..HEADER_LEN]) + Message(SetRequest(pairs))
    {
      hide U16, ListBytes;
      ghost var h := wbuf[..HEADER_LEN];
      Put(wbuf, HEADER_LEN, U16(CMD_SET_STATUS));
      Put(wbuf, HEADER_LEN + 2, U16(4 + 4 * |pairs|));
      PutList(wbuf, HEADER_LEN + 4, pairs);
      Join(h, U16(CMD_SET_STATUS), U16(4 + 4 * |pairs|), ListBytes(pairs));
    }

    /** The message part of `sample_get_status`. */
    method PutGetMessage(wbuf: array<u8>, requested: nat)
      requires wbuf.Length == 64
      modifies wbuf
      ensures wbuf[..HEADER_LEN + 8] == old(wbuf[..HEADER_LEN]) + Message(GetRequest(requested))
    {
      hide U16, U32Bytes;
      ghost var h := wbuf[..HEADER_LEN];
      Put(wbuf, HEADER_LEN, U16(CMD_GET_STATUS));
      Put(wbuf, HEADER_LEN + 2, U16(8));
      Put(wbuf, HEADER_LEN + 4, U32Bytes(0xffff_ffff));
      Join(h, U16(CMD_GET_STATUS), U16(8), U32Bytes(0xffff_ffff));
    }

    /** The message part of `sample_set_action`. */
    method PutActMessage(wbuf: array<u8>, id: u16, param1: u16, param2: u32)
      requires wbuf.Length == 64
      modifies wbuf
      ensures wbuf[..HEADER_LEN + 12] == old(wbuf[..HEADER_LEN]) + Message(ActRequest(id, param1, param2))
    {
      hide U16, U32Bytes;
      ghost var h := wbuf[..HEADER_LEN];
      Put(wbuf, HEADER_LEN, U16(CMD_DO_ACTION));
      Put(wbuf, HEADER_LEN + 2, U16(12));
      ghost var start := wbuf[..HEADER_LEN + 4];
      Put(wbuf, HEADER_LEN + 4, U16(id));
      Put(wbuf, HEADER_LEN + 6, U16(param1));
      Put(wbuf, HEADER_LEN + 8, U32Bytes(param2));
      Join(start, U16(id), U16(param1), U32Bytes(param2));
      Join(h, U16(CMD_DO_ACTION), U16(12), EventFields(id, param1, param2));
    }

    /** The copy into the send buffer. */
    method Post(wbuf: array<u8>, len: nat)
      requires Ready() && wbuf.Length == 64 && len <= 64 && wbuf != sendBuf
      modifies this`sendLen, sendBuf
      ensures Ready() && sendLen == len && sendBuf[..sendLen] == wbuf[..len]
    {
      for i := 0 to len
        invariant sendBuf[..i] == wbuf[..i]
      {
        sendBuf[i] := wbuf[i];
      }
      sendLen := len;
    }

    /** The first half of `sample_set_status`. */
    method SetStatus(devid: u32, pairs: seq<Pair>) returns (found: bool)
      requires Ready() && request == None && |pairs| <= MAX_STATUS
      modifies this, sendBuf
      ensures Ready() && found == (CzIndexOfId(drv.queue, devid) < |drv.queue|)
      ensures !found ==> State() == old(State()) && sendBuf[..] == old(sendBuf[..])
      ensures found ==> State() == Apply(old(State()), Begin(SetRequest(pairs)))
      ensures found ==>
        sendBuf[..sendLen] == RequestFrame(Target(devid), old(transId), SetRequest(pairs))
    {
      var i := drv.FindDevById(devid);
      found := i < |drv.queue|;
      if !found {
        return;
      }
      var len := 4 + 4 * |pairs|;
      assert |Message(SetRequest(pairs))| == len;
      hide Message, FrameHeader, CzIndexOfId;
      isWaiting, request, signalled := true, Some(SetRequest(pairs)), false;
      var wbuf := new u8[64];
      PutHeader(wbuf, len + HEADER_LEN, TYPE_UNICAST, drv.queue[i].shortAddr, drv.queue[i].endPoint, transId);
      PutSetMessage(wbuf, pairs);
      Post(wbuf, len + HEADER_LEN);
    }

    /** The first half of `sample_get_status`. */
    method GetStatus(devid: u32, requested: nat) returns (found: bool)
      requires Ready() && request == None
      modifies this, sendBuf
      ensures Ready() && found == (CzIndexOfId(drv.queue, devid) < |drv.queue|)
      ensures !found ==> State() == old(State()) && sendBuf[..] == old(sendBuf[..])
      ensures found ==> State() == Apply(old(State()), Begin(GetRequest(requested)))
      ensures found ==>
        sendBuf[..sendLen] == RequestFrame(Target(devid), old(transId), GetRequest(requested))
    {
      var i := drv.FindDevById(devid);
      found := i < |drv.queue|;
      if !found {
        return;
      }
      hide Message, FrameHeader, CzIndexOfId;
      isWaiting, request, signalled := true, Some(GetRequest(requested)), false;
      var wbuf := new u8[64];
      PutHeader(wbuf, 8 + HEADER_LEN, TYPE_UNICAST, drv.queue[i].shortAddr, drv.queue[i].endPoint, transId);
      PutGetMessage(wbuf, requested);
      assert |Message(GetRequest(requested))| == 8;
      Post(wbuf, 8 + HEADER_LEN);
    }

    /** The first half of `sample_set_action`. */
    method SetAction(devid: u32, id: u16, param1: u16, param2: u32) returns (found: bool)
      requires Ready() && request == None
      modifies this, sendBuf
      ensures Ready() && found == (CzIndexOfId(drv.queue, devid) < |drv.queue|)
      ensures !found ==> State() == old(State()) && sendBuf[..] == old(sendBuf[..])
      ensures found ==> State() == Apply(old(State()), Begin(ActRequest(id, param1, param2)))
      ensures found ==>
        sendBuf[..sendLen] == RequestFrame(Target(devid), old(transId), ActRequest(id, param1, param2))
    {
      var i := drv.FindDevById(devid);
      found := i < |drv.queue|;
      if !found {
        return;
      }
      hide Message, FrameHeader, CzIndexOfId;
      isWaiting, request, signalled := true, Some(ActRequest(id, param1, param2)), false;
      var wbuf := new u8[64];
      PutHeader(wbuf, 12 + HEADER_LEN, TYPE_UNICAST, drv.queue[i].shortAddr, drv.queue[i].endPoint, transId);
      PutActMessage(wbuf, id, param1, param2);
      assert |Message(ActRequest(id, param1, param2))| == 12;
      Post(wbuf, 12 + HEADER_LEN);
    }

    /** `cz_probe`. The last four bytes it sends are not set. */
    method CzProbe()
      requires Ready()
      modifies this, sendBuf
      ensures Ready() && State() == Apply(old(State()), Discover) && sendLen == 8 + HEADER_LEN
      ensures sendBuf[..16] ==
        FrameHeader(8 + HEADER_LEN, TYPE_BROADCAST, 0xFFFF, 10, 0) + (U16(CMD_DISCOVER) + U16(8))
    {
      hide U16, FrameHeader;
      isWaiting := false;
      var wbuf := new u8[64];
      PutHeader(wbuf, 8 + HEADER_LEN, TYPE_BROADCAST, 0xFFFF, 10, 0);
      ghost var h := wbuf[..HEADER_LEN];
      Put(wbuf, HEADER_LEN, U16(CMD_DISCOVER));
      Put(wbuf, HEADER_LEN + 2, U16(8));
      assert wbuf[..16] == h + (U16(CMD_DISCOVER) + U16(8));
      Post(wbuf, 8 + HEADER_LEN);
      assert sendBuf[..16] == sendBuf[..sendLen][..16] == wbuf[..16];
    }

    /** `_event`. */
    method RaiseEvent(devid: u32, kind: u16, param: u16, param2: u32)
      modifies drv.cb
      ensures drv.cb.State() == EventRaised(old(drv.cb.State()), devid, kind, param, param2)
    {
      hide Notify, ModeSet;
      if kind == 0 {
        drv.cb.DevEvent(Event(devid, EVT_SENSOR_TRIGGERED, param, 0));
      } else if kind == 1 {
        drv.cb.DevEvent(Event(devid, EVT_SENSOR_RECOVERED, param, 0));
      } else if kind == 2 {
        var _ := drv.cb.SetBoxWorkMode(param);
      } else if kind == 3 {
        drv.cb.DevEvent(Event(devid, EVT_IR_KEY, param, param2));
      }
    }

    /** The branch of `deal_recv_buf` for transaction id 0. */
    method DealUnsolicited(f: Frame)
      requires Whole(f)
      modifies drv, drv.cb
      ensures BoxPart() == Dispatched(old(BoxPart()), f)
    {
      hide Notify, CzRegistered, EventRaised, Field, GetU32;
      var cmd, addr := Field(f.buf, 12), Field(f.buf, 6);
      if cmd == CMD_DISCOVER_RESP {
        if Field(f.buf, 14) != DISCOVER_RESP_LEN {
          return;
        }
        drv.RegisterDevice(addr, Field(f.buf, 8), InfoIn(f.buf));
        return;
      }
      var i := drv.FindDevByShortAddr(addr);
      if i == |drv.queue| {
        return;
      }
      if cmd == CMD_EVENT {
        RaiseEvent(drv.queue[i].id, Field(f.buf, 16), Field(f.buf, 18), GetU32(f.buf[20..24]));
      } else if cmd == CMD_STATUS_CHANGED {
        drv.cb.DevEvent(Event(drv.queue[i].id, EVT_STATUS_UPDATED, Field(f.buf, 16), Field(f.buf, 18)));
      }
    }

    /** The copy into the receive buffer. */
    method Store(f: Frame)
      requires Ready() && Whole(f)
      modifies recvBuf
      ensures recvBuf[..] == Received(f, old(recvBuf[..]))
    {
      for i := 0 to f.len
        invariant forall j :: 0 <= j < i ==> recvBuf[j] == f.buf[j]
        invariant forall j :: i <= j < BUFFER_LEN ==> recvBuf[j] == old(recvBuf[j])
      {
        recvBuf[i] := f.buf[i];
      }
      forall j | 0 <= j < BUFFER_LEN ensures recvBuf[..][j] == Received(f, old(recvBuf[..]))[j] {
        assert j >= f.len ==> Received(f, old(recvBuf[..]))[j] == old(recvBuf[..])[f.len..][j - f.len];
      }
    }

    /** `deal_recv_buf`. */
    method DealRecvBuf(f: Frame)
      requires Ready() && Whole(f)
      modifies this`recvLen, this`signalled, recvBuf, drv, drv.cb
      ensures Ready() && State() == Apply(old(State()), Recv(f))
      ensures BoxPart() == if IdOf(f) == 0 then Dispatched(old(BoxPart()), f) else old(BoxPart())
    {
      hide Field, Received, Dispatched;
      var id := IdOf(f);
      if id == 0 {
        DealUnsolicited(f);
        return;
      }
      if id != transId || !isWaiting {
        return;
      }
      Store(f);
      recvLen := f.len;
      signalled := true;
    }

    /** `is_waiting = FALSE; trans_id++`, on every way out of a request. */
    method EndTransaction()
      requires Ready()
      modifies this
      ensures Ready() && sendLen == old(sendLen) && State() == Ended(old(State()))
    {
      isWaiting := false;
      transId := (transId + 1) % 0x1_0000;
      request := None;
      signalled := false;
    }

    /** The second half of `sample_set_status` and of `sample_set_action`. */
    method ResultReturn(timedOut: bool) returns (e: Error)
      requires Ready() && request.Some? && !request.value.GetRequest?
      requires Enabled(State(), if timedOut then Timeout else Wake)
      modifies this
      ensures Ready() && State() == Apply(old(State()), if timedOut then Timeout else Wake)
      ensures e == if timedOut then Others else Verdict(old(request).value, old(recvBuf[..]), old(recvLen)).0
    {
      if timedOut {
        e := Others;
      } else {
        var len := recvLen - HEADER_LEN;
        var cmd, rlen, result := Field(recvBuf[..], 12), Field(recvBuf[..], 14), Field(recvBuf[..], 16);
        if cmd != CMD_RESULT || rlen != len {
          e := InvalidMsg;
        } else if result == 0 {
          e := ActFailed;
        } else {
          e := Ok;
        }
      }
      EndTransaction();
    }

    /** The second half of `sample_get_status`. */
    method StatusReturn(timedOut: bool) returns (e: Error, pairs: seq<Pair>)
      requires Ready() && request.Some? && request.value.GetRequest?
      requires Enabled(State(), if timedOut then Timeout else Wake)
      modifies this
      ensures Ready() && State() == Apply(old(State()), if timedOut then Timeout else Wake)
      ensures (e, pairs)
           == if timedOut then (Others, []) else Verdict(old(request).value, old(recvBuf[..]), old(recvLen))
    {
      pairs := [];
      if timedOut {
        e := Others;
      } else {
        var len := recvLen - HEADER_LEN;
        var cmd, rlen := Field(recvBuf[..], 12), Field(recvBuf[..], 14);
        if cmd != CMD_STATUS || rlen != len {
          e := InvalidMsg;
        } else {
          pairs := ParseStatus(recvBuf[..][HEADER_LEN..], rlen, request.value.requested);
          e := Ok;
        }
      }
      EndTransaction();
    }
  }
}
