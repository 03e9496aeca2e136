/** The encoder of `lib/utils.c`: it writes sextets into the destination buffer and turns them into
    characters in place. */
module Base64Encoder {
  import opened BitStrings
  import opened Base64

  /** The four sextets the encoder computes with shifts and masks from three octets. */
  function Quad(a: bv8, b: bv8, c: bv8): (vs: seq<bv8>)
    ensures |vs| == 4 && forall i :: 0 <= i < 4 ==> vs[i] < 64
  {
    [0x3F & (a >> 2),
     ((a << 4) & 0x30) | ((b >> 4) & 0x0F),
     ((b << 2) & 0x3C) | ((c >> 6) & 0x03),
     0x3F & c]
  }

  lemma {:induction false} SextetOfOne(a: bv8)
    ensures Number(OctetBits(a)[..6]) == 0x3F & (a >> 2)
  {
    NumberOfSix(OctetBits(a)[..6]);
  }

  lemma {:induction false} SextetOfTwo(a: bv8, b: bv8)
    ensures Number(OctetBits(a)[6..] + OctetBits(b)[..4]) == ((a << 4) & 0x30) | ((b >> 4) & 0x0F)
  {
    NumberOfSix(OctetBits(a)[6..] + OctetBits(b)[..4]);
  }

  lemma {:induction false} SextetOfThree(b: bv8, c: bv8)
    ensures Number(OctetBits(b)[4..] + OctetBits(c)[..2]) == ((b << 2) & 0x3C) | ((c >> 6) & 0x03)
  {
    NumberOfSix(OctetBits(b)[4..] + OctetBits(c)[..2]);
  }

  lemma {:induction false} SextetOfLast(c: bv8)
    ensures Number(OctetBits(c)[2..]) == 0x3F & c
  {
    NumberOfSix(OctetBits(c)[2..]);
  }

  lemma {:induction false} SextetFilled(a: bv8)
    ensures Number(OctetBits(a)[6..] + Zeros(4)) == (a << 4) & 0x30
    ensures Number(OctetBits(a)[4..] + Zeros(2)) == (a << 2) & 0x3F
  {
    NumberOfSix(OctetBits(a)[6..] + Zeros(4));
    NumberOfSix(OctetBits(a)[4..] + Zeros(2));
  }

  lemma {:induction false} BitsConcat(a: seq<bv8>, b: seq<bv8>)
    ensures Bits(a + b) == Bits(a) + Bits(b)
  {
    if a == [] {
      assert a + b == b;
    } else {
      assert (a + b)[1..] == a[1..] + b;
      BitsConcat(a[1..], b);
    }
  }

  /** Whole groups of three octets regroup independently of what follows. */
  lemma {:induction false} RegroupAppend(a: seq<bv8>, b: seq<bv8>)
    requires |a| % 3 == 0
    ensures Regroup(Bits(a + b)) == Regroup(Bits(a)) + Regroup(Bits(b))
  {
    var vs := Regroup(Bits(a));
    StreamOfRegroup(Bits(a));
    assert SextetStream(vs) == Bits(a);
    BitsConcat(a, b);
    RegroupStream(vs, Bits(b));
  }

  lemma {:induction false} RegroupBits8(x: seq<bool>)
    requires |x| == 8
    ensures Regroup(x) == [Number(x[..6]), Number(x[6..] + Zeros(4))]
  {
    assert x == x[..6] + x[6..];
    RegroupCons(x[..6], x[6..]);
  }

  lemma {:induction false} RegroupBits16(x: seq<bool>, y: seq<bool>)
    requires |x| == 8 && |y| == 8
    ensures Regroup(x + y) == [Number(x[..6]), Number(x[6..] + y[..4]), Number(y[4..] + Zeros(2))]
  {
    var p, q := x[..6], x[6..] + y[..4];
    assert x + y == p + (q + y[4..]);
    RegroupCons(p, q + y[4..]);
    RegroupCons(q, y[4..]);
  }

  lemma {:induction false} RegroupBits24(x: seq<bool>, y: seq<bool>, z: seq<bool>)
    requires |x| == 8 && |y| == 8 && |z| == 8
    ensures Regroup(x + (y + z))
         == [Number(x[..6]), Number(x[6..] + y[..4]), Number(y[4..] + z[..2]), Number(z[2..])]
  {
    var p, q, r, t := x[..6], x[6..] + y[..4], y[4..] + z[..2], z[2..];
    assert x + (y + z) == p + (q + (r + t));
    RegroupCons(p, q + (r + t));
    RegroupCons(q, r + t);
    RegroupCons(r, t);
    assert t[..6] == t;
  }

  lemma {:induction false} BitsPrepend(a: bv8, bs: seq<bv8>)
    ensures Bits([a] + bs) == OctetBits(a) + Bits(bs)
  {
    assert ([a] + bs)[1..] == bs;
  }

  lemma {:induction false} RegroupThree(a: bv8, b: bv8, c: bv8)
    ensures Regroup(Bits([a, b, c])) == Quad(a, b, c)
  {
    BitsOfFew(a, b, c);
    RegroupBits24(OctetBits(a), OctetBits(b), OctetBits(c));
    SextetOfOne(a);
    SextetOfTwo(a, b);
    SextetOfThree(b, c);
    SextetOfLast(c);
  }

  lemma {:induction false} BitsOfFew(a: bv8, b: bv8, c: bv8)
    ensures Bits([a]) == OctetBits(a)
    ensures Bits([a, b]) == OctetBits(a) + OctetBits(b)
    ensures Bits([a, b, c]) == OctetBits(a) + (OctetBits(b) + OctetBits(c))
  {
    BitsPrepend(a, []);
    BitsPrepend(b, []);
    BitsPrepend(c, []);
    BitsPrepend(b, [c]);
    BitsPrepend(a, [b]);
    BitsPrepend(a, [b, c]);
    assert [a] + [b, c] == [a, b, c];
    assert forall r: seq<bool> :: r + [] == r;
  }

  lemma {:induction false} RegroupOne(a: bv8)
    ensures Regroup(Bits([a])) == [0x3F & (a >> 2), (a << 4) & 0x30]
  {
    BitsOfFew(a, 0, 0);
    RegroupBits8(OctetBits(a));
    SextetOfOne(a);
    SextetFilled(a);
  }

  lemma {:induction false} RegroupTwo(a: bv8, b: bv8)
    ensures Regroup(Bits([a, b]))
         == [0x3F & (a >> 2), ((a << 4) & 0x30) | ((b >> 4) & 0x0F), (b << 2) & 0x3F]
  {
    BitsOfFew(a, b, 0);
    RegroupBits16(OctetBits(a), OctetBits(b));
    SextetOfOne(a);
    SextetOfTwo(a, b);
    SextetFilled(b);
  }

  lemma {:induction false} CharsAppend(a: seq<bv8>, b: seq<bv8>)
    requires |a| % 3 == 0
    ensures Chars(a + b) == Chars(a) + Chars(b)
  {
    RegroupAppend(a, b);
    SymbolsConcat(Regroup(Bits(a)), Regroup(Bits(b)));
  }

  lemma {:induction false} SymbolsConcat(us: seq<bv8>, vs: seq<bv8>)
    requires forall i :: 0 <= i < |us| ==> us[i] < 64
    requires forall i :: 0 <= i < |vs| ==> vs[i] < 64
    ensures Symbols(us + vs) == Symbols(us) + Symbols(vs)
  {
  }

  /** The inner loop of the encoder: cells `lo .. lo + n` hold sextets and become characters. */
  method TranslateInPlace(dest: array<bv8>, lo: nat, n: nat)
    requires lo + n <= dest.Length
    requires forall i :: lo <= i < lo + n ==> dest[i] < 64
    modifies dest
    ensures forall i :: lo <= i < lo + n ==> dest[i] == Symbol(old(dest[i]))
    ensures forall i :: 0 <= i < dest.Length && !(lo <= i < lo + n) ==> dest[i] == old(dest[i])
  {
    for i := lo to lo + n
      invariant forall k :: lo <= k < i ==> dest[k] == Symbol(old(dest[k]))
      invariant forall k :: 0 <= k < dest.Length && !(lo <= k < i) ==> dest[k] == old(dest[k])
    {
      if dest[i] <= 25 {
        dest[i] := dest[i] + 65;
      } else if dest[i] <= 51 {
        dest[i] := dest[i] + 71;
      } else if dest[i] <= 61 {
        dest[i] := dest[i] - 4;
      }
      if dest[i] == 62 {
        dest[i] := 43;
      }
      if dest[i] == 63 {
        dest[i] := 47;
      }
    }
  }

  /** One turn of the encoder's main loop. */
  method EncodeThree(dest: array<bv8>, at: nat, a: bv8, b: bv8, c: bv8)
    requires at + 4 <= dest.Length
    modifies dest
    ensures dest[..at + 4] == old(dest[..at]) + Chars([a, b, c])
    ensures forall i :: at + 4 <= i < dest.Length ==> dest[i] == old(dest[i])
  {
    dest[at] := 0x3F & (a >> 2);
    dest[at + 1] := ((a << 4) & 0x30) | ((b >> 4) & 0x0F);
    dest[at + 2] := ((b << 2) & 0x3C) | ((c >> 6) & 0x03);
    dest[at + 3] := 0x3F & c;
    assert dest[at..at + 4] == Quad(a, b, c);
    TranslateInPlace(dest, at, 4);
    RegroupThree(a, b, c);
  }

  lemma {:induction false} EncodeOneIs(a: bv8)
    ensures Encode([a]) == [Symbol(0x3F & (a >> 2)), Symbol((a << 4) & 0x30), PAD, PAD]
    ensures 0x3F & (a >> 2) < 64 && (a << 4) & 0x30 < 64
  {
    RegroupOne(a);
    assert Padding(2) == [PAD, PAD];
  }

  lemma {:induction false} EncodeTwoIs(a: bv8, b: bv8)
    ensures Encode([a, b]) == [Symbol(0x3F & (a >> 2)), Symbol(((a << 4) & 0x30) | ((b >> 4) & 0x0F)),
                               Symbol((b << 2) & 0x3F), PAD]
    ensures 0x3F & (a >> 2) < 64 && ((a << 4) & 0x30) | ((b >> 4) & 0x0F) < 64 && (b << 2) & 0x3F < 64
  {
    RegroupTwo(a, b);
    assert Padding(1) == [PAD];
  }

  /** Two sextets become the last group of four and a terminating NUL. */
  method EndWithTwo(dest: array<bv8>, at: nat, x: bv8, y: bv8)
    requires at + 5 <= dest.Length && x < 64 && y < 64
    modifies dest
    ensures dest[at] == Symbol(x) && dest[at + 1] == Symbol(y)
    ensures dest[at + 2] == dest[at + 3] == PAD && dest[at + 4] == NUL
    ensures forall i :: 0 <= i < dest.Length && !(at <= i < at + 5) ==> dest[i] == old(dest[i])
  {
    hide Symbol;
    dest[at] := x;
    dest[at + 1] := y;
    dest[at + 2] := PAD;
    TranslateInPlace(dest, at, 2);
    dest[at + 3] := PAD;
    dest[at + 4] := NUL;
  }

  /** The same for three sextets. */
  method EndWithThree(dest: array<bv8>, at: nat, x: bv8, y: bv8, z: bv8)
    requires at + 5 <= dest.Length && x < 64 && y < 64 && z < 64
    modifies dest
    ensures dest[at] == Symbol(x) && dest[at + 1] == Symbol(y) && dest[at + 2] == Symbol(z)
    ensures dest[at + 3] == PAD && dest[at + 4] == NUL
    ensures forall i :: 0 <= i < dest.Length && !(at <= i < at + 5) ==> dest[i] == old(dest[i])
  {
    hide Symbol;
    dest[at] := x;
    dest[at + 1] := y;
    dest[at + 2] := z;
    TranslateInPlace(dest, at, 3);
    dest[at + 3] := PAD;
    dest[at + 4] := NUL;
  }

  /** The encoder's ending for one left-over octet. */
  method EncodeOne(dest: array<bv8>, at: nat, a: bv8)
    requires at + 5 <= dest.Length
    modifies dest
    ensures dest[at..at + 4] == Encode([a]) && dest[at + 4] == NUL
    ensures dest[..at] == old(dest[..at]) && forall i :: at + 5 <= i < dest.Length ==> dest[i] == old(dest[i])
  {
    EncodeOneIs(a);
    hide Encode, Symbol;
    EndWithTwo(dest, at, 0x3F & (a >> 2), (a << 4) & 0x30);
  }

  /** The encoder's ending for two left-over octets. */
  method EncodeTwo(dest: array<bv8>, at: nat, a: bv8, b: bv8)
    requires at + 5 <= dest.Length
    modifies dest
    ensures dest[at..at + 4] == Encode([a, b]) && dest[at + 4] == NUL
    ensures dest[..at] == old(dest[..at]) && forall i :: at + 5 <= i < dest.Length ==> dest[i] == old(dest[i])
  {
    EncodeTwoIs(a, b);
    hide Encode, Symbol;
    EndWithThree(dest, at, 0x3F & (a >> 2), ((a << 4) & 0x30) | ((b >> 4) & 0x0F), (b << 2) & 0x3F);
  }

  /** Only the octets after the groups of three need padding. */
  lemma {:induction false} EncodeEnding(a: seq<bv8>, b: seq<bv8>)
    requires |a| % 3 == 0
    ensures Encode(a + b) == Chars(a) + Encode(b)
  {
    CharsAppend(a, b);
    PadCountAfter(|a|, |b|);
    Associate(Chars(a), Chars(b), Padding(PadCount(|b|)));
  }

  lemma {:induction false} PadCountAfter(m: nat, n: nat)
    requires m % 3 == 0
    ensures PadCount(m + n) == PadCount(n)
  {
  }

  lemma {:induction false} Associate(x: seq<bv8>, y: seq<bv8>, z: seq<bv8>)
    ensures (x + y) + z == x + (y + z)
  {
  }

  /** `encrypt_b64`. A null buffer gives -1; otherwise the encoding and a terminating NUL are
      written and nothing behind them is touched. */
  method EncryptB64(dest: array?<bv8>, src: array?<bv8>, size: nat) returns (n: int)
    requires dest != null && src != null ==>
      dest != src && size <= src.Length && 4 * ((size + 2) / 3) < dest.Length
    modifies dest
    ensures dest == null || src == null ==> n == -1
    ensures dest != null && src != null ==>
      n == 4 * ((size + 2) / 3) && dest[..n] == Encode(src[..size]) && dest[n] == NUL
      && forall i :: n < i < dest.Length ==> dest[i] == old(dest[i])
  {
    hide Chars, Encode;
    if dest == null || src == null {
      return -1;
    }
    ghost var groups := GroupRoom(size);
    var at, from := EncodeGroups(dest, src, size, groups);
    ghost var done, rest, cells := src[..from], src[from..size], dest[..at];
    n := EncodeTail(dest, at, src[from..size]);
    assert src[..size] == done + rest;
    EncodeEnding(done, rest);
    assert dest[..n] == cells + dest[at..n];
  }

  /** The encoder's ending: at most two octets are left. */
  method EncodeTail(dest: array<bv8>, at: nat, rest: seq<bv8>) returns (n: nat)
    requires |rest| <= 2 && at + (if rest == [] then 0 else 4) < dest.Length
    modifies dest
    ensures n == at + (if rest == [] then 0 else 4)
    ensures dest[at..n] == Encode(rest) && dest[n] == NUL
    ensures dest[..at] == old(dest[..at]) && forall i :: n < i < dest.Length ==> dest[i] == old(dest[i])
  {
    if rest == [] {
      dest[at] := NUL;
      return at;
    }
    if |rest| == 1 {
      EncodeOne(dest, at, rest[0]);
      assert rest == [rest[0]];
    } else {
      EncodeTwo(dest, at, rest[0], rest[1]);
      assert rest == [rest[0], rest[1]];
    }
    return at + 4;
  }

  /** The encoder's main loop: all whole groups of three octets. */
  method EncodeGroups(dest: array<bv8>, src: array<bv8>, size: nat, ghost groups: nat) returns (at: nat, from: nat)
    requires dest != src && size <= src.Length
    requires 3 * groups <= size < 3 * groups + 3 && 4 * groups <= dest.Length
    modifies dest
    ensures from == 3 * groups && at == 4 * groups
    ensures dest[..at] == Chars(src[..from]) && forall i :: at <= i < dest.Length ==> dest[i] == old(dest[i])
  {
    assert Chars([]) == [];
    hide *;
    ghost var done := 0;
    at, from := 0, 0;
    while size - from >= 3
      invariant done <= groups && from == 3 * done && at == 4 * done
      invariant dest[..at] == Chars(src[..from])
      invariant forall i :: at <= i < dest.Length ==> dest[i] == old(dest[i])
    {
      EncodeNext(dest, src, at, from, done);
      at, from, done := at + 4, from + 3, done + 1;
    }
  }

  /** One more group of three. */
  method EncodeNext(dest: array<bv8>, src: array<bv8>, at: nat, from: nat, ghost done: nat)
    requires dest != src && from + 3 <= src.Length && at + 4 <= dest.Length && from == 3 * done
    requires dest[..at] == Chars(src[..from])
    modifies dest
    ensures dest[..at + 4] == Chars(src[..from + 3])
    ensures forall i :: at + 4 <= i < dest.Length ==> dest[i] == old(dest[i])
  {
    hide *;
    var a, b, c := src[from], src[from + 1], src[from + 2];
    NextChars(src[..from], done, src[..from + 3], a, b, c);
    EncodeThree(dest, at, a, b, c);
  }

  lemma {:induction false} NextChars(s: seq<bv8>, done: nat, t: seq<bv8>, a: bv8, b: bv8, c: bv8)
    requires |s| == 3 * done && |t| == |s| + 3 && t[..|s|] == s
    requires t[|s|] == a && t[|s| + 1] == b && t[|s| + 2] == c
    ensures Chars(t) == Chars(s) + Chars([a, b, c])
  {
    hide Chars;
    assert t == s + [a, b, c];
    CharsAppend(s, [a, b, c]);
  }

  lemma {:induction false} GroupRoom(size: nat) returns (groups: nat)
    ensures groups == size / 3 && 3 * groups <= size < 3 * groups + 3 && groups <= (size + 2) / 3
    ensures (size + 2) / 3 == if size == 3 * groups then groups else groups + 1
  {
    groups := size / 3;
  }
}
