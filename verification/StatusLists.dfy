/** Status lists on the wire: `_make_notify_resp` and `_get_dev_status` of
    `core_daemon/network.c`, and the encode and parse loops of the drivers. */
module StatusLists {
  import opened Device
  import opened Wire

  type Pair = (u16, u16)

  const CMD_GET_STATUS_RESP: u16 := 0x8822
  const MAX_STATUS := 8

  function PairBytes(p: Pair): (b: bytes)
    ensures |b| == 4
  {
    U16(p.0) + U16(p.1)
  }

  function ListBytes(ps: seq<Pair>): (b: bytes)
    ensures |b| == 4 * |ps|
  {
    if ps == [] then [] else ListBytes(ps[..|ps| - 1]) + PairBytes(ps[|ps| - 1])
  }

  /** The pair at offset `o` of a buffer. */
  function PairAt(b: bytes, o: nat): Pair
    requires o + 4 <= |b|
  {
    (GetU16(b[o..o + 2]), GetU16(b[o + 2..o + 4]))
  }

  /** The first `n` pairs from offset `o` on. */
  function ListAt(b: bytes, o: nat, n: nat): (ps: seq<Pair>)
    requires o + 4 * n <= |b|
    ensures |ps| == n
  {
    seq(n, i requires 0 <= i < n => PairAt(b, o + 4 * i))
  }

  lemma {:induction false} PairAtBytes(a: bytes, p: Pair, c: bytes)
    ensures PairAt(a + PairBytes(p) + c, |a|) == p
  {
    hide U16, GetU16;
    var b, o := a + PairBytes(p) + c, |a|;
    assert b[o..o + 2] == U16(p.0) && b[o + 2..o + 4] == U16(p.1);
    GetOfU16(p.0);
    GetOfU16(p.1);
  }

  /** A list can be read back wherever it stands in a buffer. */
  lemma {:induction false} ListRoundTrip(a: bytes, ps: seq<Pair>, c: bytes)
    ensures ListAt(a + ListBytes(ps) + c, |a|, |ps|) == ps
  {
    hide PairAt, PairBytes;
    if ps != [] {
      var n := |ps| - 1;
      var last := PairBytes(ps[n]);
      assert a + ListBytes(ps) + c == a + ListBytes(ps[..n]) + (last + c);
      ListRoundTrip(a, ps[..n], last + c);
      assert a + ListBytes(ps) + c == (a + ListBytes(ps[..n])) + last + c;
      PairAtBytes(a + ListBytes(ps[..n]), ps[n], c);
      var b := a + ListBytes(ps) + c;
      assert ListAt(b, |a|, n + 1) == ListAt(b, |a|, n) + [PairAt(b, |a| + 4 * n)];
    }
  }

  // ---------------------------------------------------------------- the box's own frames

  function StatusFrame(devid: u32, ps: seq<Pair>): bytes
    requires |ps| <= MAX_STATUS
  {
    U16(CMD_GET_STATUS_RESP) + U16(8 + 4 * |ps|) + U32Bytes(devid) + ListBytes(ps)
  }

  /** Store one field and keep what is around it. */
  method PutPair(buf: array<u8>, at: nat, p: Pair)
    requires at + 4 <= buf.Length
    modifies buf
    ensures buf[..at + 4] == old(buf[..at]) + PairBytes(p)
  {
    var lo, hi := U16(p.0), U16(p.1);
    buf[at], buf[at + 1], buf[at + 2], buf[at + 3] := lo[0], lo[1], hi[0], hi[1];
  }

  /** The loop both encoders share: the pairs, four bytes each, behind what is already there. */
  method PutList(buf: array<u8>, at: nat, ps: seq<Pair>)
    requires at + 4 * |ps| <= buf.Length
    modifies buf
    ensures buf[..at + 4 * |ps|] == old(buf[..at]) + ListBytes(ps)
  {
    hide PairBytes;
    ghost var start := buf[..at];
    for id := 0 to |ps|
      invariant buf[..at + 4 * id] == start + ListBytes(ps[..id])
    {
      PutPair(buf, at + 4 * id, ps[id]);
      assert ps[..id + 1][..id] == ps[..id];
      assert start + ListBytes(ps[..id]) + PairBytes(ps[id]) == start + ListBytes(ps[..id + 1]);
    }
    assert ps[..|ps|] == ps;
  }

  /** The status case of `_make_notify_resp`. */
  method MakeStatusResp(buf: array<u8>, devid: u32, ps: seq<Pair>) returns (len: nat)
    requires buf.Length == 64 && |ps| <= MAX_STATUS
    modifies buf
    ensures len == 8 + 4 * |ps| && buf[..len] == StatusFrame(devid, ps)
  {
    len := 8 + 4 * |ps|;
    var cmd, length, id := U16(CMD_GET_STATUS_RESP), U16(len), U32Bytes(devid);
    hide U16, U32Bytes, ListBytes;
    buf[0], buf[1], buf[2], buf[3] := cmd[0], cmd[1], length[0], length[1];
    buf[4], buf[5], buf[6], buf[7] := id[0], id[1], id[2], id[3];
    assert buf[..8] == cmd + length + id;
    PutList(buf, 8, ps);
  }

  /** C division, which rounds toward zero. */
  function Quotient(x: int, y: int): int
    requires y > 0
  {
    if x >= 0 then x / y else -(-x / y)
  }

  /** How many pairs `_get_dev_status` reports for a message of this length, as a 32-bit number. */
  function StatusCount(len: nat): u32 {
    var total := Quotient(len - 8, 4);
    if total > MAX_STATUS then MAX_STATUS else total % U32
  }

  /** `_get_dev_status`. */
  method GetDevStatus(buf: bytes, len: nat) returns (num: u32, ps: seq<Pair>)
    requires len <= |buf|
    ensures num == StatusCount(len)
    ensures len >= 8 ==> num == |ps| && ps == ListAt(buf, 8, |ps|)
    ensures len < 8 ==> ps == []
  {
    var total := Quotient(len - 8, 4);
    if total > MAX_STATUS {
      total := MAX_STATUS;
    }
    ps := [];
    var id := 0;
    while id < total
      invariant 0 <= id && (total >= 0 ==> id <= total) && (total < 0 ==> id == 0) && |ps| == id
      invariant 8 + 4 * id <= |buf| || id == 0
      invariant id > 0 ==> ps == ListAt(buf, 8, id)
    {
      ps := ps + [PairAt(buf, 8 + 4 * id)];
      id := id + 1;
    }
    num := total % U32;
  }

  /** The count is what the message holds, at most 8, exactly when the message is longer than its
      header: with four bytes or fewer it is 2^32 - 1. */
  lemma {:induction false} StatusCountBound(len: nat)
    requires len > 0
    ensures StatusCount(len) <= MAX_STATUS <==> len > 4
    ensures len <= 4 ==> StatusCount(len) == U32 - 1
    ensures len >= 40 ==> StatusCount(len) == 8
    ensures len >= 8 ==> StatusCount(len) == if (len - 8) / 4 > MAX_STATUS then MAX_STATUS else (len - 8) / 4
  {
  }

  /** What `_get_dev_status` reads from a frame that `_make_notify_resp` built is what went in. */
  lemma {:induction false} StatusRoundTrip(devid: u32, ps: seq<Pair>, behind: bytes)
    requires |ps| <= MAX_STATUS
    ensures var f := StatusFrame(devid, ps);
      |f| >= 8 && StatusCount(|f|) == |ps| && ListAt(f + behind, 8, |ps|) == ps
  {
    var a := U16(CMD_GET_STATUS_RESP) + U16(8 + 4 * |ps|) + U32Bytes(devid);
    assert StatusFrame(devid, ps) == a + ListBytes(ps);
    ListRoundTrip(a, ps, behind);
  }

  /** Field by field: command 0x8822, the frame's length, the device, and each pair's id before its
      value. */
  lemma {:induction false} StatusFrameFields(devid: u32, ps: seq<Pair>)
    requires |ps| <= MAX_STATUS
    ensures var f := StatusFrame(devid, ps);
      && |f| == 8 + 4 * |ps| && f[0..2] == [0x22, 0x88] && GetU16(f[2..4]) == |f| && GetU32(f[4..8]) == devid
      && forall i :: 0 <= i < |ps| ==>
        GetU16(f[8 + 4 * i..10 + 4 * i]) == ps[i].0 && GetU16(f[10 + 4 * i..12 + 4 * i]) == ps[i].1
  {
    var f := StatusFrame(devid, ps);
    assert f[0..2] == U16(CMD_GET_STATUS_RESP) == [0x22, 0x88];
    StatusRoundTrip(devid, ps, []);
    assert f + [] == f;
    hide U16, GetU16, U32Bytes, GetU32, ListBytes;
    assert f[2..4] == U16(8 + 4 * |ps|) && f[4..8] == U32Bytes(devid);
    GetOfU16(8 + 4 * |ps|);
    GetOfU32(devid);
    forall i | 0 <= i < |ps|
      ensures GetU16(f[8 + 4 * i..10 + 4 * i]) == ps[i].0 && GetU16(f[10 + 4 * i..12 + 4 * i]) == ps[i].1
    {
      assert ListAt(f, 8, |ps|)[i] == ps[i] == PairAt(f, 8 + 4 * i);
    }
  }

  // ---------------------------------------------------------------- the drivers' messages

  /** A set-status message of a driver. */
  function DriverMessage(cmd: u16, ps: seq<Pair>): bytes
    requires |ps| <= 15
  {
    U16(cmd) + U16(4 + 4 * |ps|) + ListBytes(ps)
  }

  /** Field by field: the command, the message's length, and each pair's id before its value. */
  lemma {:induction false} DriverMessageFields(cmd: u16, ps: seq<Pair>)
    requires |ps| <= 15
    ensures var m := DriverMessage(cmd, ps);
      && |m| == 4 + 4 * |ps| && GetU16(m[0..2]) == cmd && GetU16(m[2..4]) == |m|
      && forall i :: 0 <= i < |ps| ==>
        GetU16(m[4 + 4 * i..6 + 4 * i]) == ps[i].0 && GetU16(m[6 + 4 * i..8 + 4 * i]) == ps[i].1
  {
    var m, a := DriverMessage(cmd, ps), U16(cmd) + U16(4 + 4 * |ps|);
    assert m == a + ListBytes(ps) && a + ListBytes(ps) + [] == m;
    ListRoundTrip(a, ps, []);
    hide U16, GetU16, ListBytes;
    assert m[0..2] == U16(cmd) && m[2..4] == U16(4 + 4 * |ps|);
    GetOfU16(cmd);
    GetOfU16(4 + 4 * |ps|);
    forall i | 0 <= i < |ps|
      ensures GetU16(m[4 + 4 * i..6 + 4 * i]) == ps[i].0 && GetU16(m[6 + 4 * i..8 + 4 * i]) == ps[i].1
    {
      assert ListAt(m, 4, |ps|)[i] == ps[i] == PairAt(m, 4 + 4 * i);
    }
  }

  /** The encode loop of `virtual_switch_set_status`. */
  method EncodeStatus(wbuf: array<u8>, cmd: u16, ps: seq<Pair>) returns (len: nat)
    requires wbuf.Length == SEND_BUFFER && |ps| <= 15
    modifies wbuf
    ensures len == 4 + 4 * |ps| && wbuf[..len] == DriverMessage(cmd, ps)
  {
    len := 4 + 4 * |ps|;
    var c, l := U16(cmd), U16(len);
    hide U16, ListBytes;
    wbuf[0], wbuf[1], wbuf[2], wbuf[3] := c[0], c[1], l[0], l[1];
    assert wbuf[..4] == c + l;
    PutList(wbuf, 4, ps);
  }

  const SEND_BUFFER := 64

  /** Where the pair `id` ends that an encode loop stores from `at` on. */
  function PairEnd(at: nat, id: nat): nat {
    at + 4 * id + 4
  }

  /** An encode loop over `count` pairs stores within the send buffer. */
  ghost predicate StoresWithin(at: nat, count: nat) {
    forall id: nat :: id < count ==> PairEnd(at, id) <= SEND_BUFFER
  }

  /** The encode loops of both drivers stay within their buffers with the count that a SET_STATUS
      message reports, exactly if the message is longer than four bytes. */
  lemma {:induction false} EncodeStaysWithin(len: nat)
    requires len > 0
    ensures StoresWithin(4, StatusCount(len)) <==> len > 4
    ensures StoresWithin(16, StatusCount(len)) <==> len > 4
  {
    StatusCountBound(len);
    if len <= 4 {
      assert PairEnd(4, 15) > SEND_BUFFER && PairEnd(16, 15) > SEND_BUFFER;
    }
  }

  /** How many pairs the parse loop stores: the test against the request comes after storing. */
  function ParsedCount(rlen: nat, requested: nat): nat {
    var wanted, present := if requested == 0 then 1 else requested, if rlen < 4 then 0 else (rlen - 4) / 4;
    if wanted < present then wanted else present
  }

  /** The parse loop of `virtual_switch_get_status` and `sample_get_status`. */
  method ParseStatus(rbuf: bytes, rlen: nat, requested: nat) returns (ps: seq<Pair>)
    requires rlen <= |rbuf|
    ensures |ps| == ParsedCount(rlen, requested) && 4 + 4 * |ps| <= |rbuf| + (if ps == [] then 4 else 0)
    ensures ps != [] ==> ps == ListAt(rbuf, 4, |ps|)
  {
    ps := [];
    var len := 4;
    while len + 4 <= rlen
      invariant len == 4 + 4 * |ps| && (ps == [] || len <= rlen)
      invariant ps != [] ==> |ps| < requested && ps == ListAt(rbuf, 4, |ps|)
    {
      ps := ps + [PairAt(rbuf, len)];
      len := len + 4;
      if |ps| >= requested {
        break;
      }
    }
  }

  /** Parsing inverts the set-status layout, as far as pairs were asked for; a request for none
      still yields one. */
  lemma {:induction false} DriverRoundTrip(cmd: u16, ps: seq<Pair>, requested: nat, behind: bytes)
    requires |ps| <= 15
    ensures var m := DriverMessage(cmd, ps);
      && ParsedCount(|m|, requested) == (if requested >= |ps| then |ps| else if requested == 0 then 1 else requested)
      && ListAt(m + behind, 4, ParsedCount(|m|, requested)) == ps[..ParsedCount(|m|, requested)]
  {
    var a := U16(cmd) + U16(4 + 4 * |ps|);
    var m := DriverMessage(cmd, ps);
    assert m == a + ListBytes(ps);
    ListRoundTrip(a, ps, behind);
    var n := ParsedCount(|m|, requested);
    assert ListAt(m + behind, 4, n) == ListAt(m + behind, 4, |ps|)[..n];
  }
}
