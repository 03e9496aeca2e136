/** The Wi-Fi provisioning frames of `misc/smart_config.c`: every data byte becomes a triple of
    packet lengths, and the triples are stored by frame index, out of order. */
module Provisioning {
  import opened Arithmetic
  import opened Crc8

  const GUIDE_CODE: seq<bv16> := [515, 514, 513, 512]
  const DATA_CODES := 1024

  // ---------------------------------------------------------------- one frame

  function LowByte(x: bv16): bv8 {
    (x & 0xff) as bv8
  }

  /** The code carrying a checksum nibble and a data nibble. */
  function PayloadCode(crcNibble: bv8, dataNibble: bv8): bv16 {
    ((crcNibble as bv16 << 4) | dataNibble as bv16) + 40
  }

  function SequenceCode(index: bv8): bv16 {
    (0x100 | index as bv16) + 40
  }

  function HighCode(crc: bv8, data: bv8): bv16 {
    PayloadCode(crc >> 4, data >> 4)
  }

  function LowCode(crc: bv8, data: bv8): bv16 {
    PayloadCode(crc & 0xF, data & 0xF)
  }

  /** The three codes of a frame, as they are sent. */
  datatype Codes = Codes(first: bv16, second: bv16, third: bv16)

  function CodesOf(data: bv8, index: bv8, crc: bv8): Codes {
    Codes(HighCode(crc, data), SequenceCode(index), LowCode(crc, data))
  }

  function FrameCodes(data: bv8, index: bv8): Codes {
    CodesOf(data, index, Crc([data, index]))
  }

  datatype Frame = Frame(data: bv8, index: bv8, crc: bv8)

  /** What a receiver reads out of one packet length. */
  function ReadCode(c: bv16): bv8 {
    LowByte(c - 40)
  }

  /** What a receiver reads out of three packet lengths. */
  function ReadCodes(c: Codes): Frame {
    ReadParts(ReadCode(c.first), ReadCode(c.second), ReadCode(c.third))
  }

  function ReadParts(hi: bv8, index: bv8, lo: bv8): Frame {
    Frame((hi << 4) | (lo & 0xF), index, (hi & 0xF0) | (lo >> 4))
  }

  function HighNibbles(crc: bv8, data: bv8): bv8 {
    (crc & 0xF0) | (data >> 4)
  }

  function LowNibbles(crc: bv8, data: bv8): bv8 {
    (crc << 4) | (data & 0xF)
  }

  lemma {:induction false} ReadHigh(crc: bv8, data: bv8)
    ensures ReadCode(HighCode(crc, data)) == HighNibbles(crc, data)
  {
  }

  lemma {:induction false} ReadLow(crc: bv8, data: bv8)
    ensures ReadCode(LowCode(crc, data)) == LowNibbles(crc, data)
  {
  }

  lemma {:induction false} ReadIndex(index: bv8)
    ensures ReadCode(SequenceCode(index)) == index
  {
  }

  lemma {:induction false} Assemble(crc: bv8, data: bv8, index: bv8)
    ensures ReadParts(HighNibbles(crc, data), index, LowNibbles(crc, data)) == Frame(data, index, crc)
  {
  }

  /** The codes of a frame determine its data byte, its index and its checksum. */
  lemma {:induction false} ReadBack(data: bv8, index: bv8, crc: bv8)
    ensures ReadCodes(CodesOf(data, index, crc)) == Frame(data, index, crc)
  {
    hide ReadCode, HighCode, LowCode, SequenceCode, HighNibbles, LowNibbles, ReadParts;
    ReadHigh(crc, data);
    ReadIndex(index);
    ReadLow(crc, data);
    Assemble(crc, data, index);
  }

  /** The codes in numbers: 40 plus the high nibbles, 296 plus the index, 40 plus the low nibbles, each
      time the checksum's nibble first. */
  lemma {:induction false} CodeNumbers(data: bv8, index: bv8, crc: bv8)
    ensures var c, d, k, s := CodesOf(data, index, crc), data as bv16, index as bv16, crc as bv16;
      c.first == 40 + s / 16 * 16 + d / 16 && c.second == 296 + k && c.third == 40 + s % 16 * 16 + d % 16
  {
  }

  /** Payload codes, sequence codes and guide codes occupy disjoint numeric ranges, except
      that the sequence codes of frames 216 to 219 are the guide codes. */
  lemma {:induction false} CodeRanges(data: bv8, index: bv8, crc: bv8)
    ensures var c := CodesOf(data, index, crc);
      && 40 <= c.first <= 295 && 40 <= c.third <= 295 && 296 <= c.second <= 551
      && (c.second in GUIDE_CODE <==> 216 <= index <= 219)
  {
  }

  function FrameSequenceCode(k: nat): bv16
    requires k < 256
  {
    SequenceCode(k as bv8)
  }

  /** Codes of `f` frames stay clear of the guide codes exactly when there are at most 216. */
  lemma {:induction false} GuideCollision(f: nat)
    requires f <= 256
    ensures (forall k :: 0 <= k < f ==> FrameSequenceCode(k) !in GUIDE_CODE) <==> f <= 216
  {
    forall k | 0 <= k < f ensures FrameSequenceCode(k) in GUIDE_CODE <==> 216 <= k <= 219 {
      CodeRanges(0, k as bv8, 0);
      ByteOrder(k);
    }
    if f > 216 {
      assert FrameSequenceCode(216) in GUIDE_CODE;
    }
  }

  lemma {:induction false} ByteOrder(k: nat)
    requires k < 256
    ensures 216 <= k <= 219 <==> 216 <= k as bv8 <= 219
  {
  }

  // ---------------------------------------------------------------- the whole message

  function XorFrom(sum: bv8, bs: seq<bv8>): bv8 {
    if bs == [] then sum else XorFrom(sum, bs[..|bs| - 1]) ^ bs[|bs| - 1]
  }

  function XorAll(bs: seq<bv8>): bv8 {
    XorFrom(0, bs)
  }

  function FrameCount(ssid: seq<bv8>, pwd: seq<bv8>): nat {
    9 + |pwd| + |ssid|
  }

  /** The low byte of a length that is kept in 16 bits. */
  function LengthLow(n: nat): bv8 {
    LowByte((n % 65536) as bv16)
  }

  function Header(ssid: seq<bv8>, pwd: seq<bv8>, bssid: seq<bv8>): (h: seq<bv8>)
    ensures |h| == 4
  {
    [LengthLow(FrameCount(ssid, pwd)), LengthLow(|pwd|), Crc(ssid), Crc(bssid)]
  }

  /** The data bytes in frame order: lengths and checksums, the XOR byte, address, password, name. */
  function FrameData(ssid: seq<bv8>, pwd: seq<bv8>, ip: seq<bv8>, bssid: seq<bv8>): (d: seq<bv8>)
    requires |ip| == 4
    ensures |d| == FrameCount(ssid, pwd)
  {
    var h, b := Header(ssid, pwd, bssid), ip + pwd + ssid;
    h + [XorAll(h + b)] + b
  }

  lemma {:induction false} XorAssoc(x: bv8, y: bv8, z: bv8)
    ensures (x ^ y) ^ z == x ^ (y ^ z) && x ^ 0 == x && x ^ x == 0 && (x ^ y) ^ z == (x ^ z) ^ y
  {
  }

  lemma {:induction false} XorFromConcat(sum: bv8, a: seq<bv8>, b: seq<bv8>)
    ensures XorFrom(sum, a + b) == XorFrom(XorFrom(sum, a), b)
  {
    if b == [] {
      assert a + b == a;
    } else {
      var n := |b| - 1;
      assert (a + b)[..|a| + n] == a + b[..n];
      XorFromConcat(sum, a, b[..n]);
    }
  }

  lemma {:induction false} XorFromSum(x: bv8, y: bv8, bs: seq<bv8>)
    ensures XorFrom(x ^ y, bs) == XorFrom(x, bs) ^ y
  {
    if bs != [] {
      var n := |bs| - 1;
      XorFromSum(x, y, bs[..n]);
      XorAssoc(XorFrom(x, bs[..n]), y, bs[n]);
    }
  }

  /** The XOR of all data bytes of a message is zero. */
  lemma {:induction false} FrameDataXor(ssid: seq<bv8>, pwd: seq<bv8>, ip: seq<bv8>, bssid: seq<bv8>)
    requires |ip| == 4
    ensures XorAll(FrameData(ssid, pwd, ip, bssid)) == 0
  {
    var h, b := Header(ssid, pwd, bssid), ip + pwd + ssid;
    var x := XorAll(h + b);
    XorFromConcat(0, h, b);
    XorFromConcat(0, h + [x], b);
    assert (h + [x])[..4] == h;
    XorFromSum(XorFrom(0, h), x, b);
    XorAssoc(x, x, x);
  }

  ghost predicate HoldsCodes(cells: seq<bv16>, k: nat, c: Codes) {
    3 * k + 3 <= |cells| && cells[3 * k] == c.first && cells[3 * k + 1] == c.second && cells[3 * k + 2] == c.third
  }

  /** One call of `make_data_code`: the frame it writes and the byte it stores there. */
  datatype Write = Write(index: nat, data: bv8)

  /** The `i`-th write has not been overwritten yet. */
  ghost predicate Standing(log: seq<Write>, i: nat)
    requires i < |log|
  {
    forall j :: i < j < |log| ==> log[j].index != log[i].index
  }

  lemma {:induction false} StandingBefore(log: seq<Write>, w: Write, i: nat)
    ensures i < |log| && Standing(log + [w], i) ==> Standing(log, i) && log[i].index != w.index
  {
    if i < |log| && Standing(log + [w], i) {
      assert (log + [w])[|log|] == w;
      forall j | i < j < |log| ensures log[j].index != log[i].index {
        assert (log + [w])[j] == log[j];
      }
    }
  }

  /** If the `i`-th write still stands, its cells hold the codes of its byte. */
  ghost predicate Coded(cells: seq<bv16>, log: seq<Write>, i: nat) {
    i < |log| && Standing(log, i) ==>
      log[i].index < 256 && HoldsCodes(cells, log[i].index, FrameCodes(log[i].data, log[i].index as bv8))
  }

  /** One more write keeps the standing ones coded. */
  lemma {:induction false} CodedAfter(cells: seq<bv16>, cells': seq<bv16>, log: seq<Write>, w: Write, i: nat)
    requires |cells| == |cells'| && w.index < 256 && HoldsCodes(cells', w.index, FrameCodes(w.data, w.index as bv8))
    requires forall j :: 0 <= j < |cells| && !(3 * w.index <= j < 3 * w.index + 3) ==> cells'[j] == cells[j]
    requires Coded(cells, log, i)
    ensures Coded(cells', log + [w], i)
  {
    hide FrameCodes;
    StandingBefore(log, w, i);
    if i < |log| && Standing(log + [w], i) {
      var k := log[i].index;
      assert k < w.index || k > w.index;
      assert cells'[3 * k] == cells[3 * k];
      assert cells'[3 * k + 1] == cells[3 * k + 1];
      assert cells'[3 * k + 2] == cells[3 * k + 2];
    }
  }

  /** The writes of consecutive frames from `first`; the index parameter has 8 bits. */
  ghost function RunLog(first: nat, bytes: seq<bv8>): (w: seq<Write>)
    ensures |w| == |bytes|
  {
    seq(|bytes|, i requires 0 <= i < |bytes| => Write((first + i) % 256, bytes[i]))
  }

  lemma {:induction false} RunLogSnoc(first: nat, bytes: seq<bv8>, n: nat)
    requires n < |bytes|
    ensures RunLog(first, bytes[..n + 1]) == RunLog(first, bytes[..n]) + [Write((first + n) % 256, bytes[n])]
  {
  }

  ghost function DataOf(log: seq<Write>): (bs: seq<bv8>)
    ensures |bs| == |log|
  {
    seq(|log|, i requires 0 <= i < |log| => log[i].data)
  }

  ghost function XorLog(log: seq<Write>): bv8 {
    XorAll(DataOf(log))
  }

  lemma {:induction false} XorLogSnoc(log: seq<Write>, w: Write)
    ensures XorLog(log + [w]) == XorLog(log) ^ w.data
  {
    assert DataOf(log + [w])[..|log|] == DataOf(log);
  }

  /** A plain `char` widened to 16 bits; whether it is signed depends on the machine. */
  function Widened(c: bv8, signed: bool): bv16 {
    if signed && c & 0x80 != 0 then 0xff00 | c as bv16 else c as bv16
  }

  lemma {:induction false} LowByteWidened(c: bv8, signed: bool)
    ensures LowByte(Widened(c, signed)) == c && LowByte(c as bv16) == c
  {
  }

  lemma {:induction false} LowByteXor(x: bv16, y: bv16)
    ensures LowByte(x ^ y) == LowByte(x) ^ LowByte(y)
  {
  }

  lemma {:induction false} Nibbles(data: bv16, crc: bv8)
    ensures (((data & 0xF0) >> 4) as bv8) == LowByte(data) >> 4 && (data & 0xF) as bv8 == LowByte(data) & 0xF
    ensures (crc & 0xF0) >> 4 == crc >> 4
  {
  }

  class Encoder {
    const crcTable: array<bv16>
    const dataCode: array<bv16>
    var dcLen: int
    /** The `make_data_code` calls since the message was started. */
    ghost var log: seq<Write>

    ghost predicate Valid()
      reads crcTable
    {
      dataCode.Length == DATA_CODES && crcTable != dataCode && IsCrcTable(crcTable[..])
    }

    ghost predicate Consistent()
      reads this, dataCode
    {
      forall i: nat :: Coded(dataCode[..], log, i)
    }

    constructor ()
      ensures fresh(crcTable) && fresh(dataCode)
      ensures crcTable.Length == 256 && dataCode.Length == DATA_CODES && crcTable != dataCode
    {
      crcTable := new bv16[256];
      dataCode := new bv16[DATA_CODES];
      dcLen := 0;
      log := [];
    }

    /** The part of `make_data_code` that computes: checksum, nibbles, codes. */
    method ComputeCodes(data: bv16, index: bv8) returns (c: Codes)
      requires Valid()
      ensures c == FrameCodes(LowByte(data), index)
    {
      var datal := (data & 0xF) as bv8;
      var datah := ((data & 0xF0) >> 4) as bv8;
      var buf := [LowByte(data), index];
      var crc := ComputeCrc8(crcTable, buf, 0, 2);
      assert buf[0..2] == buf;
      Nibbles(data, crc);
      c := Codes(PayloadCode((crc & 0xF0) >> 4, datah), SequenceCode(index), PayloadCode(crc & 0xF, datal));
    }

    method PutCodes(k: nat, c: Codes)
      requires k < 256 && dataCode.Length == DATA_CODES
      modifies dataCode
      ensures HoldsCodes(dataCode[..], k, c)
      ensures forall i :: 0 <= i < DATA_CODES && !(3 * k <= i < 3 * k + 3) ==> dataCode[i] == old(dataCode[i])
    {
      var offset := k * 3;
      dataCode[offset] := c.first;
      dataCode[offset + 1] := c.second;
      dataCode[offset + 2] := c.third;
    }

    /** `make_data_code`. */
    method MakeDataCode(data: bv16, index: nat)
      requires Valid() && Consistent()
      modifies dataCode, this`log
      ensures Valid() && Consistent() && log == old(log) + [Write(index % 256, LowByte(data))]
    {
      var k := index % 256;
      var c := ComputeCodes(data, k as bv8);
      ghost var cells, before := dataCode[..], log;
      PutCodes(k, c);
      log := log + [Write(k, LowByte(data))];
      hide FrameCodes, HoldsCodes;
      forall i: nat ensures Coded(dataCode[..], log, i) {
        assert Coded(cells, before, i);
        CodedAfter(cells, dataCode[..], before, Write(k, LowByte(data)), i);
      }
    }

    /** A frame and its share of the XOR, which covers everything written so far. */
    method MakeFrame(data: bv16, index: nat, total: bv16) returns (total': bv16)
      requires Valid() && Consistent() && LowByte(total) == XorLog(log)
      modifies dataCode, this`log
      ensures Valid() && Consistent() && LowByte(total') == XorLog(log)
      ensures log == old(log) + [Write(index % 256, LowByte(data))]
    {
      XorLogSnoc(log, Write(index % 256, LowByte(data)));
      MakeDataCode(data, index);
      LowByteXor(total, data);
      total' := total ^ data;
    }

    /** One of the three loops of `make_code`. A `char` may widen with its sign. */
    method MakeRun(bytes: seq<bv8>, first: nat, signed: bool, total: bv16) returns (total': bv16)
      requires Valid() && Consistent() && LowByte(total) == XorLog(log)
      modifies dataCode, this`log
      ensures Valid() && Consistent() && LowByte(total') == XorLog(log)
      ensures log == old(log) + RunLog(first, bytes)
    {
      total' := total;
      for cnt := 0 to |bytes|
        invariant Valid() && Consistent() && LowByte(total') == XorLog(log)
        invariant log == old(log) + RunLog(first, bytes[..cnt])
      {
        LowByteWidened(bytes[cnt], signed);
        RunLogSnoc(first, bytes, cnt);
        total' := MakeFrame(Widened(bytes[cnt], signed), first + cnt, total');
      }
      assert bytes[..|bytes|] == bytes;
    }

    /** The first four frames, given their 16-bit data. */
    method MakeFour(a: bv16, b: bv16, c: bv16, d: bv16) returns (total: bv16)
      requires Valid() && Consistent() && log == []
      modifies dataCode, this`log
      ensures Valid() && Consistent() && LowByte(total) == XorLog(log)
      ensures log == RunLog(0, [LowByte(a), LowByte(b), LowByte(c), LowByte(d)])
    {
      assert LowByte(0) == XorLog([]);
      total := MakeFrame(a, 0, 0);
      total := MakeFrame(b, 1, total);
      total := MakeFrame(c, 2, total);
      total := MakeFrame(d, 3, total);
    }

    /** The frames of lengths and checksums. */
    method MakeHeader(ssid: seq<bv8>, pwd: seq<bv8>, bssid: seq<bv8>) returns (total: bv16)
      requires Valid() && Consistent() && log == []
      modifies dataCode, this`log
      ensures Valid() && Consistent() && LowByte(total) == XorLog(log)
      ensures log == RunLog(0, Header(ssid, pwd, bssid))
    {
      var totalLen: bv16 := ((9 + |pwd| + |ssid|) % 65536) as bv16;
      var apPwdLen: bv16 := (|pwd| % 65536) as bv16;
      var apSsidCrc := ComputeCrc8(crcTable, ssid, 0, |ssid|);
      var apBssidCrc := ComputeCrc8(crcTable, bssid, 0, |bssid|);
      assert ssid[0..|ssid|] == ssid && bssid[0..|bssid|] == bssid;
      LowByteWidened(apSsidCrc, false);
      LowByteWidened(apBssidCrc, false);
      assert Header(ssid, pwd, bssid) == [LowByte(totalLen), LowByte(apPwdLen), apSsidCrc, apBssidCrc];
      total := MakeFour(totalLen, apPwdLen, apSsidCrc as bv16, apBssidCrc as bv16);
    }

    /** `make_code`. The string lengths are kept in 16 bits. Up to 256 frames, every frame of
        the message is written exactly once and its cells hold its codes. */
    method MakeCode(ssid: seq<bv8>, pwd: seq<bv8>, ip: seq<bv8>, bssid: seq<bv8>, signed: bool)
      requires |ip| == 4 && |bssid| == 6
      requires crcTable.Length == 256 && dataCode.Length == DATA_CODES && crcTable != dataCode
      modifies this, crcTable, dataCode
      ensures var p, s := Kept(pwd), Kept(ssid); var d := FrameData(s, p, ip, bssid);
        && dcLen == (9 + |p|) * 3
        && log == MessageLog(s, p, ip, bssid)
        && (|d| <= 256 ==> forall k: nat :: k < |d| ==> HoldsCodes(dataCode[..], k, CodesAt(d, k)))
    {
      hide HoldsCodes, FrameCodes, CodesAt, XorLog, IsCrcTable, Standing;
      InitCrcTable(crcTable);
      var p, s := Kept(pwd), Kept(ssid);
      log := [];
      var total := MakeHeader(s, p, bssid);
      total := MakeRun(ip, 5, false, total);
      total := MakeRun(p, 9, signed, total);
      total := MakeRun(s, 9 + |p|, signed, total);
      MessageXor(s, p, ip, bssid);
      MakeDataCode(total, 4);
      dcLen := (9 + |p|) * 3;
      if |FrameData(s, p, ip, bssid)| <= 256 {
        MessageStored(dataCode[..], s, p, ip, bssid);
      }
    }
  }

  /** A string as far as a 16-bit length reaches. */
  function Kept(s: seq<bv8>): seq<bv8> {
    s[..|s| % 65536]
  }

  ghost function CodesAt(d: seq<bv8>, k: nat): Codes
    requires k < |d| <= 256
  {
    FrameCodes(d[k], k as bv8)
  }

  ghost function LogBeforeXor(s: seq<bv8>, p: seq<bv8>, ip: seq<bv8>, bssid: seq<bv8>): seq<Write> {
    RunLog(0, Header(s, p, bssid)) + RunLog(5, ip) + RunLog(9, p) + RunLog(9 + |p|, s)
  }

  /** The writes of one `make_code`: the XOR byte, frame 4, comes last. */
  ghost function MessageLog(s: seq<bv8>, p: seq<bv8>, ip: seq<bv8>, bssid: seq<bv8>): seq<Write>
    requires |ip| == 4
  {
    LogBeforeXor(s, p, ip, bssid) + [Write(4, FrameData(s, p, ip, bssid)[4])]
  }

  lemma {:induction false} MessageXor(s: seq<bv8>, p: seq<bv8>, ip: seq<bv8>, bssid: seq<bv8>)
    requires |ip| == 4
    ensures XorLog(LogBeforeXor(s, p, ip, bssid)) == FrameData(s, p, ip, bssid)[4]
  {
    var h := Header(s, p, bssid);
    assert DataOf(LogBeforeXor(s, p, ip, bssid)) == h + (ip + p + s);
  }

  /** Where frame `k` is in the log. */
  function Place(k: nat, f: nat): nat
    requires k < f
  {
    if k < 4 then k else if k == 4 then f - 1 else k - 1
  }

  /** The `i`-th write of a message: a byte of the header, the address, the password, the
      name, or finally the XOR byte. */
  lemma {:induction false} LogAt(s: seq<bv8>, p: seq<bv8>, ip: seq<bv8>, bssid: seq<bv8>, i: nat)
    requires |ip| == 4 && i < FrameCount(s, p) <= 256
    ensures var h, log, f := Header(s, p, bssid), MessageLog(s, p, ip, bssid), FrameCount(s, p);
      && |log| == f
      && (i < 4 ==> log[i] == Write(i, h[i]))
      && (4 <= i < f - 1 ==> log[i] == Write(i + 1, (ip + p + s)[i - 4]))
      && (i == f - 1 ==> log[i].index == 4)
  {
    hide Header;
    var h, log := Header(s, p, bssid), MessageLog(s, p, ip, bssid);
    if i < 4 {
      assert log[i] == RunLog(0, h)[i];
    } else if i < 8 {
      assert log[i] == RunLog(5, ip)[i - 4];
    } else if i < 8 + |p| {
      assert log[i] == RunLog(9, p)[i - 8];
    } else if i < 8 + |p| + |s| {
      assert log[i] == RunLog(9 + |p|, s)[i - 8 - |p|];
    }
  }

  /** Up to 256 frames, every frame is written exactly once, with its own byte. */
  lemma {:induction false} WrittenOnce(s: seq<bv8>, p: seq<bv8>, ip: seq<bv8>, bssid: seq<bv8>, i: nat)
    requires |ip| == 4 && i < FrameCount(s, p) <= 256
    ensures var d, log, f := FrameData(s, p, ip, bssid), MessageLog(s, p, ip, bssid), FrameCount(s, p);
      |log| == f && log[i].index < f && Place(log[i].index, f) == i && log[i].data == d[log[i].index]
  {
    LogAt(s, p, ip, bssid, i);
  }

  lemma {:induction false} MessageStored(cells: seq<bv16>, s: seq<bv8>, p: seq<bv8>, ip: seq<bv8>, bssid: seq<bv8>)
    requires |ip| == 4 && FrameCount(s, p) <= 256
    requires forall i: nat :: Coded(cells, MessageLog(s, p, ip, bssid), i)
    ensures var d := FrameData(s, p, ip, bssid);
      forall k: nat :: k < |d| ==> HoldsCodes(cells, k, CodesAt(d, k))
  {
    var d, log := FrameData(s, p, ip, bssid), MessageLog(s, p, ip, bssid);
    forall k: nat | k < |d| ensures HoldsCodes(cells, k, CodesAt(d, k)) {
      var i := Place(k, |d|);
      forall j | 0 <= j < |d| ensures |log| == |d| && log[j].index < |d| && Place(log[j].index, |d|) == j {
        WrittenOnce(s, p, ip, bssid, j);
      }
      WrittenOnce(s, p, ip, bssid, i);
      assert log[i].index == k;
      assert Standing(log, i);
      assert Coded(cells, log, i);
    }
  }

  /** What a receiver reads of frame `k`. */
  function FrameIn(cells: seq<bv16>, k: nat): Frame
    requires 3 * k + 3 <= |cells|
  {
    ReadCodes(Codes(cells[3 * k], cells[3 * k + 1], cells[3 * k + 2]))
  }

  lemma {:induction false} FrameHeld(cells: seq<bv16>, k: nat, data: bv8)
    requires k < 256 && HoldsCodes(cells, k, FrameCodes(data, k as bv8))
    ensures FrameIn(cells, k) == Frame(data, k as bv8, Crc([data, k as bv8]))
  {
    ReadBack(data, k as bv8, Crc([data, k as bv8]));
    hide CodesOf, ReadCodes, Crc;
  }

  lemma {:induction false} LengthByte(n: nat)
    requires n <= 256
    ensures LengthLow(n) as int == n % 256
  {
    assert n % 65536 == n;
    LowByteNumber(n as bv16);
  }

  lemma {:induction false} LowByteNumber(x: bv16)
    requires x <= 256
    ensures LowByte(x) as int == x as int % 256
  {
  }

  lemma {:induction false} Layout<T>(d: seq<T>, h: seq<T>, x: T, ip: seq<T>, p: seq<T>, s: seq<T>, k: nat)
    requires |h| == 4 && |ip| == 4 && d == h + [x] + (ip + p + s) && k < |d|
    ensures |d| == 9 + |p| + |s|
    ensures k < 4 ==> d[k] == h[k]
    ensures 5 <= k < 9 ==> d[k] == ip[k - 5]
    ensures 9 <= k < 9 + |p| ==> d[k] == p[k - 9]
    ensures 9 + |p| <= k ==> d[k] == s[k - 9 - |p|]
  {
  }

  lemma {:induction false} HeaderSays(s: seq<bv8>, p: seq<bv8>, bssid: seq<bv8>)
    requires 9 + |p| + |s| <= 256
    ensures var h := Header(s, p, bssid);
      h[0] as int == (9 + |p| + |s|) % 256 && h[1] as int == |p| && h[2] == Crc(s) && h[3] == Crc(bssid)
  {
    hide LengthLow, Crc;
    LengthByte(9 + |p| + |s|);
    LengthByte(|p|);
  }

  /** The bytes of a message: the number of frames, the length of the password, the checksum of the
      name, the checksum of the access point's address, the byte that makes the XOR of all zero, the
      address, the password, the name. */
  lemma {:induction false} DataLayout(s: seq<bv8>, p: seq<bv8>, ip: seq<bv8>, bssid: seq<bv8>, k: nat)
    requires |ip| == 4 && k < 9 + |p| + |s| <= 256
    ensures var d := FrameData(s, p, ip, bssid);
      && |d| == 9 + |p| + |s|
      && (k == 0 ==> d[k] as int == (9 + |p| + |s|) % 256) && (k == 1 ==> d[k] as int == |p|)
      && (k == 2 ==> d[k] == Crc(s)) && (k == 3 ==> d[k] == Crc(bssid))
      && (5 <= k < 9 ==> d[k] == ip[k - 5])
      && (9 <= k < 9 + |p| ==> d[k] == p[k - 9])
      && (9 + |p| <= k ==> d[k] == s[k - 9 - |p|])
  {
    hide Header, Crc, XorAll;
    var d, h, b := FrameData(s, p, ip, bssid), Header(s, p, bssid), ip + p + s;
    assert d == h + [XorAll(h + b)] + b;
    hide *;
    Layout(d, h, XorAll(h + b), ip, p, s, k);
    if k < 4 {
      HeaderSays(s, p, bssid);
    }
  }

  /** So what a receiver reads from the stored codes is that message, each byte with the index of its
      frame and the checksum of both. */
  lemma {:induction false} MessageLayout(
      cells: seq<bv16>, s: seq<bv8>, p: seq<bv8>, ip: seq<bv8>, bssid: seq<bv8>, k: nat)
    requires |ip| == 4 && k < FrameCount(s, p) <= 256
    requires HoldsCodes(cells, k, CodesAt(FrameData(s, p, ip, bssid), k))
    ensures var f := FrameIn(cells, k);
      && f.index == k as bv8 && f.crc == Crc([f.data, f.index])
      && (k == 0 ==> f.data as int == (9 + |p| + |s|) % 256) && (k == 1 ==> f.data as int == |p|)
      && (k == 2 ==> f.data == Crc(s)) && (k == 3 ==> f.data == Crc(bssid))
      && (5 <= k < 9 ==> f.data == ip[k - 5])
      && (9 <= k < 9 + |p| ==> f.data == p[k - 9])
      && (9 + |p| <= k ==> f.data == s[k - 9 - |p|])
  {
    var d := FrameData(s, p, ip, bssid);
    DataLayout(s, p, ip, bssid, k);
    hide Crc, FrameIn, FrameCodes, HoldsCodes, FrameData;
    FrameHeld(cells, k, d[k]);
  }

  // ---------------------------------------------------------------- which frames are sent

  /** `main` steps through the codes three at a time, modulo `dc_len`. */
  function IndexAfter(n: nat, dcLen: nat): nat
    requires dcLen > 0
  {
    if n == 0 then 0 else (IndexAfter(n - 1, dcLen) + 3) % dcLen
  }

  lemma {:induction false} IndexCycle(n: nat, f: nat)
    requires f > 0
    ensures IndexAfter(n, 3 * f) == 3 * (n % f)
  {
    if n > 0 {
      IndexCycle(n - 1, f);
      CycleStep(n - 1, f);
    }
  }

  lemma {:induction false} CycleStep(n: nat, f: nat)
    requires f > 0
    ensures (3 * (n % f) + 3) % (3 * f) == 3 * ((n + 1) % f)
  {
    var q, r := n / f, n % f;
    assert n == q * f + r;
    if r + 1 < f {
      DivModUnique(n + 1, q, r + 1, f);
      DivModUnique(3 * r + 3, 0, 3 * r + 3, 3 * f);
    } else {
      assert n + 1 == (q + 1) * f;
      DivModUnique(n + 1, q + 1, 0, f);
      DivModUnique(3 * r + 3, 1, 0, 3 * f);
    }
  }

  /** When the loop sends `turns` frames before its time is up, these are exactly the first `turns`
      of those before the network name, again and again: `dc_len` leaves the name out, so however
      long the loop runs the frames of the name are never sent. */
  lemma {:induction false} SentFrames(pwdLen: nat, dcLen: nat, k: nat, turns: nat)
    requires dcLen == (9 + pwdLen) * 3
    ensures (exists n :: 0 <= n < turns && IndexAfter(n, dcLen) == 3 * k) <==> k < 9 + pwdLen && k < turns
  {
    var f := 9 + pwdLen;
    if k < f && k < turns {
      IndexCycle(k, f);
      DivModUnique(k, 0, k, f);
      assert IndexAfter(k, dcLen) == 3 * k;
    }
    forall n | 0 <= n < turns && IndexAfter(n, dcLen) == 3 * k ensures k < f && k < turns {
      SentAt(n, f, k);
    }
  }

  lemma {:induction false} SentAt(n: nat, f: nat, k: nat)
    requires f > 0 && IndexAfter(n, 3 * f) == 3 * k
    ensures k < f && k <= n
  {
    IndexCycle(n, f);
    if n < f {
      DivModUnique(n, 0, n, f);
    }
  }
}
