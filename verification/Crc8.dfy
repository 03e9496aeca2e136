/** The CRC-8 of `misc/smart_config.c`: a table built once, and a table-driven checksum whose
    16-bit accumulator keeps stale bits in its high half. Proved against bit-by-bit reflected
    division by the polynomial 0x8c. */
module Crc8 {
  import opened BitStrings

  const POLYNOM: bv8 := 0x8c

  /** One turn of the division register. */
  function Step(r: bv8): bv8 {
    if r & 1 != 0 then (r >> 1) ^ POLYNOM else r >> 1
  }

  function Bit(on: bool): bv8 {
    if on then 1 else 0
  }

  /** Reflected division, one message bit at a time. */
  function Divide(bits: seq<bool>, r: bv8): bv8 {
    if bits == [] then r else Step(Divide(bits[..|bits| - 1], r) ^ Bit(bits[|bits| - 1]))
  }

  /** `n` turns of the register with nothing coming in. */
  function Steps(r: bv8, n: nat): bv8 {
    Divide(Zeros(n), r)
  }

  /** The bits of an octet, least significant first. */
  function OctetBits(b: bv8): (r: seq<bool>)
    ensures |r| == 8
  {
    [b & 1 != 0, b & 2 != 0, b & 4 != 0, b & 8 != 0, b & 0x10 != 0, b & 0x20 != 0, b & 0x40 != 0, b & 0x80 != 0]
  }

  function Bits(msg: seq<bv8>): (r: seq<bool>)
    ensures |r| == 8 * |msg|
  {
    if msg == [] then [] else Bits(msg[..|msg| - 1]) + OctetBits(msg[|msg| - 1])
  }

  /** The checksum of a message. */
  function Crc(msg: seq<bv8>): bv8 {
    Divide(Bits(msg), 0)
  }

  /** No message leaves the register at zero, and a message whose only set bit is the last one sent
      leaves the polynomial, x^8 + x^5 + x^4 + 1 with its lowest power first. */
  lemma {:induction false} CrcOfOneBit()
    ensures Crc([]) == 0 && Crc([0x80]) == 0x8c
  {
    var b := OctetBits(0x80);
    assert Bits([0x80]) == Bits([]) + b == b by {
      assert [0x80 as bv8][..0] == [];
    }
    assert b == Zeros(7) + [true];
    assert b[..7] == Zeros(7);
    StepsZeroAll(7);
  }

  lemma {:induction false} StepsZeroAll(n: nat)
    ensures Divide(Zeros(n), 0) == 0
  {
    if n > 0 {
      StepsZeroAll(n - 1);
      assert Zeros(n)[..n - 1] == Zeros(n - 1);
    }
  }

  // ---------------------------------------------------------------- octet by octet

  lemma {:induction false} StepShift(b: bv8)
    ensures Step(b ^ Bit(b & 1 != 0)) == b >> 1
  {
  }

  function XorBits(a: seq<bool>, b: seq<bool>): (c: seq<bool>)
    requires |a| == |b|
    ensures |c| == |a|
  {
    seq(|a|, i requires 0 <= i < |a| => a[i] != b[i])
  }

  lemma {:induction false} XorBitsPrefix(a: seq<bool>, b: seq<bool>, n: nat)
    requires |a| == |b| == n + 1
    ensures XorBits(a, b)[..n] == XorBits(a[..n], b[..n]) && XorBits(a, b)[n] == (a[n] != b[n])
  {
  }

  // Linearity is proved for a register of any type, so that no bit has to be looked at.

  function Run<T>(feed: (T, bool) -> T, bits: seq<bool>, r: T): T {
    if bits == [] then r else feed(Run(feed, bits[..|bits| - 1], r), bits[|bits| - 1])
  }

  ghost predicate LinearAt<T>(feed: (T, bool) -> T, add: (T, T) -> T, p: T, q: T, x: bool, y: bool) {
    feed(add(p, q), x != y) == add(feed(p, x), feed(q, y))
  }

  lemma {:induction false} RunLinear<T(!new)>(
      feed: (T, bool) -> T, add: (T, T) -> T, a: seq<bool>, b: seq<bool>, r: T, s: T)
    requires |a| == |b|
    requires forall p, q, x, y :: LinearAt(feed, add, p, q, x, y)
    ensures Run(feed, XorBits(a, b), add(r, s)) == add(Run(feed, a, r), Run(feed, b, s))
  {
    if a != [] {
      var n := |a| - 1;
      XorBitsPrefix(a, b, n);
      RunLinear(feed, add, a[..n], b[..n], r, s);
      assert LinearAt(feed, add, Run(feed, a[..n], r), Run(feed, b[..n], s), a[n], b[n]);
    }
  }

  function Feed(r: bv8, on: bool): bv8 {
    Step(r ^ Bit(on))
  }

  function Xor(r: bv8, s: bv8): bv8 {
    r ^ s
  }

  lemma {:induction false} FeedLinear(p: bv8, q: bv8, x: bool, y: bool)
    ensures LinearAt(Feed, Xor, p, q, x, y)
  {
  }

  lemma {:induction false} RunIsDivide(bits: seq<bool>, r: bv8)
    ensures Run(Feed, bits, r) == Divide(bits, r)
  {
    if bits != [] {
      RunIsDivide(bits[..|bits| - 1], r);
    }
  }

  /** The division is XOR-linear in the message and the register together. */
  lemma {:induction false} DivideLinear(a: seq<bool>, b: seq<bool>, r: bv8, s: bv8)
    requires |a| == |b|
    ensures Divide(XorBits(a, b), r ^ s) == Divide(a, r) ^ Divide(b, s)
  {
    forall p, q, x, y ensures LinearAt(Feed, Xor, p, q, x, y) {
      FeedLinear(p, q, x, y);
    }
    RunLinear(Feed, Xor, a, b, r, s);
    RunIsDivide(a, r);
    RunIsDivide(b, s);
    RunIsDivide(XorBits(a, b), r ^ s);
  }

  lemma {:induction false} DivideConcat(a: seq<bool>, b: seq<bool>, r: bv8)
    ensures Divide(a + b, r) == Divide(b, Divide(a, r))
  {
    if b == [] {
      assert a + b == a;
    } else {
      var n := |b| - 1;
      assert (a + b)[..|a| + n] == a + b[..n];
      DivideConcat(a, b[..n], r);
    }
  }

  lemma {:induction false} DivideOne(on: bool, r: bv8)
    ensures Divide([on], r) == Step(r ^ Bit(on))
  {
    assert Divide([on][..0], r) == r;
  }

  lemma {:induction false} DivideCons(on: bool, rest: seq<bool>, r: bv8)
    ensures Divide([on] + rest, r) == Divide(rest, Step(r ^ Bit(on)))
  {
    DivideConcat([on], rest, r);
    DivideOne(on, r);
  }

  lemma {:induction false} StepsLast(x: bv8, n: nat)
    ensures Steps(x, n + 1) == Step(Steps(x, n))
  {
    assert Zeros(n + 1)[..n] == Zeros(n);
    XorTwice(Steps(x, n), 0);
  }

  /** A register fed with its own low bit only shifts. */
  lemma {:induction false} DivideShift(bits: seq<bool>, k: nat, c: bv8)
    requires k < |bits| && bits[k] == (c & 1 != 0)
    ensures Divide(bits[k..], c) == Divide(bits[k + 1..], c >> 1)
  {
    assert bits[k..] == [bits[k]] + bits[k + 1..];
    DivideCons(bits[k], bits[k + 1..], c);
    StepShift(c);
  }

  lemma {:induction false} BitsByShift(b: bv8)
    ensures var r := OctetBits(b);
      && r[0] == (b & 1 != 0) && r[1] == ((b >> 1) & 1 != 0)
      && r[2] == ((b >> 2) & 1 != 0) && r[3] == ((b >> 3) & 1 != 0)
      && r[4] == ((b >> 4) & 1 != 0) && r[5] == ((b >> 5) & 1 != 0)
      && r[6] == ((b >> 6) & 1 != 0) && r[7] == ((b >> 7) & 1 != 0)
  {
  }

  lemma {:induction false} ShiftTwice(b: bv8)
    ensures (b >> 1) >> 1 == b >> 2 && (b >> 2) >> 1 == b >> 3 && (b >> 3) >> 1 == b >> 4 && (b >> 4) >> 1 == b >> 5
    ensures (b >> 5) >> 1 == b >> 6 && (b >> 6) >> 1 == b >> 7 && (b >> 7) >> 1 == 0
  {
  }

  lemma {:induction false} DivideFirstHalf(bits: seq<bool>, b: bv8)
    requires bits == OctetBits(b)
    ensures Divide(bits, b) == Divide(bits[4..], b >> 4)
  {
    hide Divide;
    BitsByShift(b);
    ShiftTwice(b);
    DivideShift(bits, 0, b);
    DivideShift(bits, 1, b >> 1);
    DivideShift(bits, 2, b >> 2);
    DivideShift(bits, 3, b >> 3);
    assert bits[0..] == bits;
  }

  lemma {:induction false} DivideSelf(bits: seq<bool>, b: bv8)
    requires bits == OctetBits(b)
    ensures Divide(bits, b) == 0
  {
    assert Divide([], 0) == 0;
    hide Divide;
    DivideFirstHalf(bits, b);
    BitsByShift(b);
    ShiftTwice(b);
    DivideShift(bits, 4, b >> 4);
    DivideShift(bits, 5, b >> 5);
    DivideShift(bits, 6, b >> 6);
    DivideShift(bits, 7, b >> 7);
    assert bits[8..] == [];
  }

  lemma {:induction false} XorTwice(r: bv8, b: bv8)
    ensures r == (r ^ b) ^ b && r ^ 0 == r
  {
  }

  /** Eight single-bit turns do what one XOR and eight empty turns do. */
  lemma {:induction false} DivideOctet(b: bv8, r: bv8)
    ensures Divide(OctetBits(b), r) == Steps(r ^ b, 8)
  {
    var bits := OctetBits(b);
    DivideLinear(Zeros(8), bits, r ^ b, b);
    assert XorBits(Zeros(8), bits) == bits;
    DivideSelf(bits, b);
    XorTwice(r, b);
    XorTwice(Steps(r ^ b, 8), b);
  }

  lemma {:induction false} CrcAppend(msg: seq<bv8>, b: bv8)
    ensures Crc(msg + [b]) == Steps(Crc(msg) ^ b, 8)
  {
    assert (msg + [b])[..|msg|] == msg;
    DivideConcat(Bits(msg), OctetBits(b), 0);
    DivideOctet(b, Crc(msg));
  }

  // ---------------------------------------------------------------- the program

  /** The table holds, for every octet, what eight empty turns make of it. */
  ghost predicate IsCrcTable(table: seq<bv16>) {
    |table| == 256 && forall x: bv8 :: table[x as int] == Steps(x, 8) as bv16
  }

  lemma {:induction false} Widen(r: bv8)
    ensures r as bv16 & 1 != 0 ==> ((r as bv16) >> 1) ^ 0x8c == Step(r) as bv16
    ensures r as bv16 & 1 == 0 ==> (r as bv16) >> 1 == Step(r) as bv16
  {
  }

  lemma {:induction false} WidenInt(d: int)
    requires 0 <= d < 256
    ensures d as bv16 == d as bv8 as bv16
  {
  }

  /** The inner loop of `init_crcTable`. */
  method TableEntry(dividend: nat) returns (remainder: bv16)
    requires dividend < 256
    ensures remainder == Steps(dividend as bv8, 8) as bv16
  {
    remainder := dividend as bv16;
    ghost var d := dividend as bv8;
    WidenInt(dividend);
    for bit := 0 to 8
      invariant remainder == Steps(d, bit) as bv16
    {
      Widen(Steps(d, bit));
      StepsLast(d, bit);
      if remainder & 0x01 != 0 {
        remainder := (remainder >> 1) ^ 0x8c;
      } else {
        remainder := remainder >> 1;
      }
    }
  }

  /** `init_crcTable`. */
  method InitCrcTable(table: array<bv16>)
    requires table.Length == 256
    modifies table
    ensures IsCrcTable(table[..])
  {
    hide Steps, Divide;
    for dividend := 0 to 256
      invariant forall d :: 0 <= d < dividend ==> table[d] == Steps(d as bv8, 8) as bv16
    {
      var remainder := TableEntry(dividend);
      table[dividend] := remainder;
    }
    TableOfEntries(table[..]);
  }

  lemma {:induction false} TableOfEntries(table: seq<bv16>)
    requires |table| == 256 && forall d :: 0 <= d < 256 ==> table[d] == Steps(d as bv8, 8) as bv16
    ensures IsCrcTable(table)
  {
    hide Steps, Divide;
    forall x: bv8 ensures table[x as int] == Steps(x, 8) as bv16 {
      assert x as int as bv8 == x;
    }
  }

  lemma {:induction false} LookUp(x: bv16)
    ensures (x & 0xff) as int == (x & 0xff) as bv8 as int
  {
  }

  lemma {:induction false} LowHalf(b: bv8, value: bv16)
    ensures (((b as bv16) ^ value) & 0xff) as bv8 == ((value & 0xff) as bv8) ^ b
  {
  }

  lemma {:induction false} StaleHalf(e: bv8, value: bv16)
    ensures (((e as bv16) ^ (value << 8)) & 0xff) as bv8 == e
  {
  }

  method Fetch(table: array<bv16>, data: bv16) returns (entry: bv16)
    requires IsCrcTable(table[..])
    ensures entry == Steps((data & 0xff) as bv8, 8) as bv16
  {
    LookUp(data);
    entry := table[(data & 0xff) as int];
    assert entry == table[..][(data & 0xff) as bv8 as int];
  }

  /** The body of the loop of `crc8`, seen on the low half of the accumulator. */
  method Advance(table: array<bv16>, b: bv8, value: bv16) returns (next: bv16)
    requires IsCrcTable(table[..])
    ensures (next & 0xff) as bv8 == Steps(((value & 0xff) as bv8) ^ b, 8)
  {
    var data := (b as bv16) ^ value;
    var entry := Fetch(table, data);
    LowHalf(b, value);
    StaleHalf(Steps(((value & 0xff) as bv8) ^ b, 8), value);
    next := entry ^ (value << 8);
  }

  /** `crc8`: whatever the high half of the accumulator carries, the result is the checksum. */
  method ComputeCrc8(table: array<bv16>, buf: seq<bv8>, offset: nat, len: nat) returns (crc: bv8)
    requires IsCrcTable(table[..]) && offset + len <= |buf|
    ensures crc == Crc(buf[offset..offset + len])
  {
    var value: bv16 := 0;
    ghost var msg := buf[offset..offset + len];
    for cnt := 0 to len
      invariant (value & 0xff) as bv8 == Crc(msg[..cnt])
    {
      value := Advance(table, buf[offset + cnt], value);
      CrcAppend(msg[..cnt], msg[cnt]);
      assert msg[..cnt + 1] == msg[..cnt] + [msg[cnt]];
    }
    assert msg[..len] == msg;
    return (value & 0xff) as bv8;
  }

  // ---------------------------------------------------------------- what the checksum detects

  function XorBytes(a: seq<bv8>, b: seq<bv8>): (c: seq<bv8>)
    requires |a| == |b|
    ensures |c| == |a|
  {
    seq(|a|, i requires 0 <= i < |a| => a[i] ^ b[i])
  }

  lemma {:induction false} MaskXor(x: bv8, y: bv8)
    ensures ((x ^ y) & 1 != 0) == ((x & 1 != 0) != (y & 1 != 0))
    ensures ((x ^ y) & 2 != 0) == ((x & 2 != 0) != (y & 2 != 0))
    ensures ((x ^ y) & 4 != 0) == ((x & 4 != 0) != (y & 4 != 0))
    ensures ((x ^ y) & 8 != 0) == ((x & 8 != 0) != (y & 8 != 0))
    ensures ((x ^ y) & 0x10 != 0) == ((x & 0x10 != 0) != (y & 0x10 != 0))
    ensures ((x ^ y) & 0x20 != 0) == ((x & 0x20 != 0) != (y & 0x20 != 0))
    ensures ((x ^ y) & 0x40 != 0) == ((x & 0x40 != 0) != (y & 0x40 != 0))
    ensures ((x ^ y) & 0x80 != 0) == ((x & 0x80 != 0) != (y & 0x80 != 0))
  {
  }

  lemma {:induction false} OctetBitsXor(x: bv8, y: bv8)
    ensures OctetBits(x ^ y) == XorBits(OctetBits(x), OctetBits(y))
  {
    MaskXor(x, y);
    XorEight(OctetBits(x), OctetBits(y));
  }

  lemma {:induction false} XorEight(p: seq<bool>, q: seq<bool>)
    requires |p| == |q| == 8
    ensures XorBits(p, q) == [p[0] != q[0], p[1] != q[1], p[2] != q[2], p[3] != q[3],
                              p[4] != q[4], p[5] != q[5], p[6] != q[6], p[7] != q[7]]
  {
    EightEqual(XorBits(p, q), p[0] != q[0], p[1] != q[1], p[2] != q[2], p[3] != q[3],
               p[4] != q[4], p[5] != q[5], p[6] != q[6], p[7] != q[7]);
  }

  lemma {:induction false} EightEqual(
      e: seq<bool>, a: bool, b: bool, c: bool, d: bool, f: bool, g: bool, h: bool, i: bool)
    requires |e| == 8
    requires e[0] == a && e[1] == b && e[2] == c && e[3] == d && e[4] == f && e[5] == g && e[6] == h && e[7] == i
    ensures e == [a, b, c, d, f, g, h, i]
  {
  }

  lemma {:induction false} XorBitsConcat(a: seq<bool>, a': seq<bool>, b: seq<bool>, b': seq<bool>)
    requires |a| == |b| && |a'| == |b'|
    ensures XorBits(a + a', b + b') == XorBits(a, b) + XorBits(a', b')
  {
  }

  lemma {:induction false} XorBytesPrefix(a: seq<bv8>, b: seq<bv8>, n: nat)
    requires |a| == |b| == n + 1
    ensures XorBytes(a, b)[..n] == XorBytes(a[..n], b[..n]) && XorBytes(a, b)[n] == a[n] ^ b[n]
  {
  }

  lemma {:induction false} BitsXor(a: seq<bv8>, b: seq<bv8>)
    requires |a| == |b|
    ensures Bits(XorBytes(a, b)) == XorBits(Bits(a), Bits(b))
  {
    hide OctetBits, XorBits;
    if a == [] {
      assert XorBits([], []) == [];
    } else {
      var n := |a| - 1;
      BitsXor(a[..n], b[..n]);
      XorBytesPrefix(a, b, n);
      OctetBitsXor(a[n], b[n]);
      XorBitsConcat(Bits(a[..n]), OctetBits(a[n]), Bits(b[..n]), OctetBits(b[n]));
    }
  }

  /** The checksum of the XOR of two messages is the XOR of their checksums. */
  lemma {:induction false} CrcLinear(a: seq<bv8>, b: seq<bv8>)
    requires |a| == |b|
    ensures Crc(XorBytes(a, b)) == Crc(a) ^ Crc(b)
  {
    BitsXor(a, b);
    DivideLinear(Bits(a), Bits(b), 0, 0);
  }

  lemma {:induction false} StepZero(x: bv8)
    ensures Step(x) == 0 <==> x == 0
  {
  }

  /** Empty turns neither create nor lose a remainder. */
  lemma {:induction false} StepsZero(x: bv8, n: nat)
    ensures Steps(x, n) == 0 <==> x == 0
  {
    if n > 0 {
      StepsZero(x, n - 1);
      StepsLast(x, n - 1);
      StepZero(Steps(x, n - 1));
    }
  }

  /** A message followed by its own checksum has checksum zero. */
  lemma {:induction false} CrcSelfCheck(msg: seq<bv8>)
    ensures Crc(msg + [Crc(msg)]) == 0
  {
    CrcAppend(msg, Crc(msg));
    XorTwice(0, Crc(msg));
    StepsZero(0, 8);
  }

  function Nibble(a: bool, b: bool, c: bool, d: bool): (n: bv8)
    ensures n < 16 && a == (n & 1 != 0) && b == (n & 2 != 0) && c == (n & 4 != 0) && d == (n & 8 != 0)
  {
    Bit(a) | (Bit(b) << 1) | (Bit(c) << 2) | (Bit(d) << 3)
  }

  function Join(lo: bv8, hi: bv8): (c: bv8)
    requires lo < 16 && hi < 16
    ensures c & 1 == lo & 1 && c & 2 == lo & 2 && c & 4 == lo & 4 && c & 8 == lo & 8
    ensures (c & 0x10 != 0) == (hi & 1 != 0) && (c & 0x20 != 0) == (hi & 2 != 0)
    ensures (c & 0x40 != 0) == (hi & 4 != 0) && (c & 0x80 != 0) == (hi & 8 != 0)
  {
    lo | (hi << 4)
  }

  function Octet(e: seq<bool>): bv8
    requires |e| == 8
  {
    Join(Nibble(e[0], e[1], e[2], e[3]), Nibble(e[4], e[5], e[6], e[7]))
  }

  lemma {:induction false} BitsOfOctet(e: seq<bool>)
    requires |e| == 8
    ensures OctetBits(Octet(e)) == e
  {
    EightEqual(e, e[0], e[1], e[2], e[3], e[4], e[5], e[6], e[7]);
  }

  lemma {:induction false} OctetOfBits(b: bv8)
    ensures Octet(OctetBits(b)) == b
  {
  }

  lemma {:induction false} BitsInjective(a: seq<bv8>, b: seq<bv8>)
    requires |a| == |b| && Bits(a) == Bits(b)
    ensures a == b
  {
    if a != [] {
      var n := |a| - 1;
      assert Bits(a)[..8 * n] == Bits(a[..n]) && Bits(b)[..8 * n] == Bits(b[..n]);
      assert Bits(a)[8 * n..] == OctetBits(a[n]) && Bits(b)[8 * n..] == OctetBits(b[n]);
      BitsInjective(a[..n], b[..n]);
      OctetOfBits(a[n]);
      OctetOfBits(b[n]);
    }
  }

  lemma {:induction false} DivideEight(e: seq<bool>)
    requires |e| == 8
    ensures Divide(e, 0) == Steps(Octet(e), 8)
  {
    BitsOfOctet(e);
    DivideOctet(Octet(e), 0);
    XorTwice(Octet(e), 0);
    assert 0 ^ Octet(e) == Octet(e);
  }

  /** Eight bits between zeros leave a remainder unless they are all zero. */
  lemma {:induction false} BurstRemainder(d: seq<bool>, p: nat)
    requires p + 8 <= |d|
    requires forall i :: 0 <= i < |d| && !(p <= i < p + 8) ==> !d[i]
    requires Divide(d, 0) == 0
    ensures forall i :: 0 <= i < |d| ==> !d[i]
  {
    var e, m := d[p..p + 8], |d| - p - 8;
    assert d == Zeros(p) + (e + Zeros(m));
    DivideConcat(Zeros(p), e + Zeros(m), 0);
    DivideConcat(e, Zeros(m), 0);
    StepsZero(0, p);
    StepsZero(Divide(e, 0), m);
    DivideEight(e);
    StepsZero(Octet(e), 8);
    OctetZero(e);
    forall i | 0 <= i < |d| ensures !d[i] {
      assert p <= i < p + 8 ==> d[i] == e[i - p];
    }
  }

  lemma {:induction false} OctetZero(e: seq<bool>)
    requires |e| == 8 && Octet(e) == 0
    ensures forall i :: 0 <= i < 8 ==> !e[i]
  {
    BitsOfOctet(e);
  }

  /** Any change confined to eight consecutive bits changes the checksum. */
  lemma {:induction false} BurstDetected(a: seq<bv8>, b: seq<bv8>, p: nat)
    requires |a| == |b| && a != b
    requires forall i :: 0 <= i < 8 * |a| && !(p <= i < p + 8) ==> Bits(a)[i] == Bits(b)[i]
    ensures Crc(a) != Crc(b)
  {
    if Crc(a) == Crc(b) {
      var d, n := XorBits(Bits(a), Bits(b)), 8 * |a|;
      DivideLinear(Bits(a), Bits(b), 0, 0);
      XorTwice(0, Crc(a));
      BurstRemainder(d, if p + 8 <= n then p else n - 8);
      forall i | 0 <= i < n ensures Bits(a)[i] == Bits(b)[i] {
        assert !d[i];
      }
      BitsInjective(a, b);
    }
  }

  lemma {:induction false} BitsAt(a: seq<bv8>, k: nat)
    requires k < |a|
    ensures Bits(a)[8 * k..8 * k + 8] == OctetBits(a[k])
  {
    var n := |a| - 1;
    if k < n {
      BitsAt(a[..n], k);
      assert Bits(a)[8 * k..8 * k + 8] == Bits(a[..n])[8 * k..8 * k + 8];
    }
  }

  /** In particular any change of one octet is detected. */
  lemma {:induction false} OctetChangeDetected(a: seq<bv8>, k: nat, x: bv8)
    requires k < |a| && a[k] != x
    ensures Crc(a[k := x]) != Crc(a)
  {
    hide Bits, OctetBits, Crc;
    var b := a[k := x];
    forall i | 0 <= i < 8 * |a| && !(8 * k <= i < 8 * k + 8) ensures Bits(a)[i] == Bits(b)[i] {
      var j, r := i / 8, i % 8;
      assert i == 8 * j + r && j != k;
      BitOf(a, j, r);
      BitOf(b, j, r);
    }
    BurstDetected(a, b, 8 * k);
  }

  lemma {:induction false} BitOf(a: seq<bv8>, j: nat, r: nat)
    requires j < |a| && r < 8
    ensures Bits(a)[8 * j + r] == OctetBits(a[j])[r]
  {
    BitsAt(a, j);
    hide Bits, OctetBits;
    assert Bits(a)[8 * j + r] == Bits(a)[8 * j..8 * j + 8][r];
  }
}
