/** What the Base64 codec of `lib/utils.c` means, and its laws. Encoding is the bit-level reading of
    section 4 of RFC 4648: the octets, most significant bit first, form one bit string, which is cut
    into groups of six. */
module Base64 {
  import opened BitStrings

  const NUL: bv8 := 0
  const SPACE: bv8 := 32
  const PLUS: bv8 := 43
  const PAD: bv8 := 61

  // ---------------------------------------------------------------- the alphabet

  /** Table 1 of RFC 4648. */
  function Symbol(v: bv8): bv8
    requires v < 64
  {
    if v < 26 then v + 65 else if v < 52 then v + 71 else if v < 62 then v - 4 else if v == 62 then 43 else 47
  }

  predicate InAlphabet(c: bv8) {
    c == 43 || c == 47 || 48 <= c <= 57 || 65 <= c <= 90 || 97 <= c <= 122
  }

  /** The non-negative entries of `base64_reverse_table`. */
  function Value(c: bv8): bv8
    requires InAlphabet(c)
  {
    if c == 43 then 62 else if c == 47 then 63 else if c <= 57 then c + 4 else if c <= 90 then c - 65 else c - 71
  }

  /** The alphabet: capital letters, small letters, digits, plus and slash. */
  lemma {:induction false} SymbolInOrder(v: bv8)
    requires v < 63
    ensures Symbol(0) as int == 'A' as int && Symbol(26) as int == 'a' as int && Symbol(52) as int == '0' as int
    ensures Symbol(62) as int == '+' as int && Symbol(63) as int == '/' as int
    ensures v != 25 && v != 51 && v < 61 ==> Symbol(v + 1) == Symbol(v) + 1
  {
  }

  lemma {:induction false} SymbolValue(v: bv8)
    requires v < 64
    ensures InAlphabet(Symbol(v)) && Value(Symbol(v)) == v
    ensures Symbol(v) != PAD && Symbol(v) != NUL && Symbol(v) != SPACE
  {
  }

  lemma {:induction false} ValueSymbol(c: bv8)
    requires InAlphabet(c)
    ensures Value(c) < 64 && Symbol(Value(c)) == c
  {
  }

  // ---------------------------------------------------------------- bit strings

  function OctetBits(b: bv8): (r: seq<bool>)
    ensures |r| == 8
  {
    [b & 0x80 != 0, b & 0x40 != 0, b & 0x20 != 0, b & 0x10 != 0, b & 8 != 0, b & 4 != 0, b & 2 != 0, b & 1 != 0]
  }

  function SextetBits(v: bv8): (r: seq<bool>)
    ensures |r| == 6
  {
    [v & 0x20 != 0, v & 0x10 != 0, v & 8 != 0, v & 4 != 0, v & 2 != 0, v & 1 != 0]
  }

  /** The number a short bit string spells, most significant bit first. */
  function Number(r: seq<bool>): bv8
    requires |r| <= 8
  {
    if r == [] then 0 else (Number(r[..|r| - 1]) << 1) | (if r[|r| - 1] then 1 else 0)
  }

  function Weight(on: bool, w: bv8): bv8 {
    if on then w else 0
  }

  function Weighted(r: seq<bool>): (v: bv8)
    requires |r| == 6
    ensures v < 64
  {
    Weight(r[0], 0x20) | Weight(r[1], 0x10) | Weight(r[2], 8) | Weight(r[3], 4) | Weight(r[4], 2) | Weight(r[5], 1)
  }

  lemma {:induction false} NumberOfSix(r: seq<bool>)
    requires |r| == 6
    ensures Number(r) == Weighted(r)
  {
    NumberStep(r, 0); NumberStep(r, 1); NumberStep(r, 2); NumberStep(r, 3); NumberStep(r, 4); NumberStep(r, 5);
    assert r[..0] == [] && r[..6] == r;
  }

  lemma {:induction false} NumberStep(r: seq<bool>, k: nat)
    requires k < |r| <= 8
    ensures Number(r[..k + 1]) == (Number(r[..k]) << 1) | Weight(r[k], 1)
  {
    assert r[..k + 1][..k] == r[..k];
  }

  lemma {:induction false} NumberOfEight(r: seq<bool>)
    requires |r| == 8
    ensures Number(r) == (Weighted(r[..6]) << 2) | Weight(r[6], 2) | Weight(r[7], 1)
  {
    NumberOfSix(r[..6]);
    NumberStep(r, 6); NumberStep(r, 7);
    assert r[..8] == r;
  }

  lemma {:induction false} NumberOfOctetBits(b: bv8)
    ensures Number(OctetBits(b)) == b
  {
    NumberOfEight(OctetBits(b));
  }

  lemma {:induction false} NumberOfSextetBits(v: bv8)
    requires v < 64
    ensures Number(SextetBits(v)) == v
  {
    NumberOfSix(SextetBits(v));
  }

  lemma {:induction false} SextetBitsOfNumber(r: seq<bool>)
    requires |r| == 6
    ensures SextetBits(Number(r)) == r
  {
    NumberOfSix(r);
  }

  /** All the bits of a byte string. */
  function Bits(bs: seq<bv8>): (r: seq<bool>)
    ensures |r| == 8 * |bs|
  {
    if bs == [] then [] else OctetBits(bs[0]) + Bits(bs[1..])
  }

  /** The concatenated six-bit values. */
  function SextetStream(vs: seq<bv8>): (r: seq<bool>)
    ensures |r| == 6 * |vs|
  {
    if vs == [] then [] else SextetBits(vs[0]) + SextetStream(vs[1..])
  }

  /** The leading whole octets of a bit string. */
  function WholeOctets(r: seq<bool>): (bs: seq<bv8>)
    ensures |bs| == |r| / 8
  {
    if |r| < 8 then [] else [Number(r[..8])] + WholeOctets(r[8..])
  }

  /** The groups of six, the last one filled up with zero bits. */
  function Regroup(r: seq<bool>): (vs: seq<bv8>)
    ensures |vs| == (|r| + 5) / 6
    ensures forall i :: 0 <= i < |vs| ==> vs[i] < 64
  {
    if r == [] then []
    else
      var x := if |r| < 6 then r + Zeros(6 - |r|) else r[..6];
      NumberOfSix(x);
      [Number(x)] + (if |r| < 6 then [] else Regroup(r[6..]))
  }

  lemma {:induction false} WholeOctetsCons(x: seq<bool>, r: seq<bool>)
    requires |x| == 8
    ensures WholeOctets(x + r) == [Number(x)] + WholeOctets(r)
  {
    assert (x + r)[..8] == x && (x + r)[8..] == r;
  }

  lemma {:induction false} RegroupCons(x: seq<bool>, r: seq<bool>)
    requires |x| == 6
    ensures Regroup(x + r) == [Number(x)] + Regroup(r)
  {
    assert (x + r)[..6] == x && (x + r)[6..] == r;
  }

  lemma {:induction false} WholeOctetsConcat(a: seq<bool>, b: seq<bool>)
    requires |a| % 8 == 0
    ensures WholeOctets(a + b) == WholeOctets(a) + WholeOctets(b)
  {
    if a == [] {
      assert a + b == b;
    } else {
      var x, a' := a[..8], a[8..];
      assert a == x + a' && a + b == x + (a' + b);
      WholeOctetsConcat(a', b);
      WholeOctetsCons(x, a' + b);
    }
  }

  lemma {:induction false} SextetStreamAppend(vs: seq<bv8>, v: bv8)
    ensures SextetStream(vs + [v]) == SextetStream(vs) + SextetBits(v)
  {
    if vs != [] {
      SextetStreamAppend(vs[1..], v);
      assert (vs + [v])[1..] == vs[1..] + [v];
    }
  }

  /** Octets survive being cut from their own bits, with less than an octet of bits behind. */
  lemma {:induction false} WholeOctetsOfBits(bs: seq<bv8>, tail: seq<bool>)
    requires |tail| < 8
    ensures WholeOctets(Bits(bs) + tail) == bs
  {
    if bs != [] {
      WholeOctetsOfBits(bs[1..], tail);
      assert Bits(bs) + tail == OctetBits(bs[0]) + (Bits(bs[1..]) + tail);
      WholeOctetsCons(OctetBits(bs[0]), Bits(bs[1..]) + tail);
      NumberOfOctetBits(bs[0]);
    }
  }

  /** Regrouping loses nothing: its sextets spell the bits, then fewer than six zero bits. */
  lemma {:induction false} StreamOfRegroup(r: seq<bool>)
    ensures SextetStream(Regroup(r)) == r + Zeros(6 * ((|r| + 5) / 6) - |r|)
  {
    if r == [] {
    } else if |r| < 6 {
      var x := r + Zeros(6 - |r|);
      SextetBitsOfNumber(x);
      assert Regroup(r)[1..] == [];
    } else {
      SextetBitsOfNumber(r[..6]);
      StreamOfRegroup(r[6..]);
      assert Regroup(r)[1..] == Regroup(r[6..]);
      assert r == r[..6] + r[6..];
    }
  }

  lemma {:induction false} RegroupStream(vs: seq<bv8>, r: seq<bool>)
    requires forall i :: 0 <= i < |vs| ==> vs[i] < 64
    ensures Regroup(SextetStream(vs) + r) == vs + Regroup(r)
  {
    hide Number, SextetBits;
    if vs == [] {
      assert SextetStream(vs) + r == r;
    } else {
      RegroupStream(vs[1..], r);
      assert SextetStream(vs) + r == SextetBits(vs[0]) + (SextetStream(vs[1..]) + r);
      RegroupCons(SextetBits(vs[0]), SextetStream(vs[1..]) + r);
      NumberOfSextetBits(vs[0]);
    }
  }

  // ---------------------------------------------------------------- encoding

  function Symbols(vs: seq<bv8>): (cs: seq<bv8>)
    requires forall i :: 0 <= i < |vs| ==> vs[i] < 64
    ensures |cs| == |vs|
  {
    seq(|vs|, i requires 0 <= i < |vs| => Symbol(vs[i]))
  }

  function Padding(n: nat): (p: seq<bv8>)
    ensures |p| == n
  {
    seq(n, _ => PAD)
  }

  /** The encoding before padding. */
  function Chars(bs: seq<bv8>): (cs: seq<bv8>)
    ensures |cs| == (8 * |bs| + 5) / 6
  {
    Symbols(Regroup(Bits(bs)))
  }

  function PadCount(n: nat): nat {
    (3 - n % 3) % 3
  }

  /** Section 4 of RFC 4648: regroup, translate, and pad the last group of four. */
  function Encode(bs: seq<bv8>): seq<bv8> {
    Chars(bs) + Padding(PadCount(|bs|))
  }

  lemma {:induction false} EncodeLength(bs: seq<bv8>)
    ensures |Encode(bs)| == 4 * ((|bs| + 2) / 3)
  {
    var k := |bs| / 3;
    assert |bs| == 3 * k + |bs| % 3;
    assert (8 * |bs| + 5) / 6 == 4 * k + (8 * (|bs| % 3) + 5) / 6;
  }

  // ---------------------------------------------------------------- decoding

  /** The decoder stops in front of a NUL, at the length limit and at a padding character. */
  predicate Ends(str: seq<bv8>, limit: int, p: nat)
    requires p < |str|
  {
    str[p] == NUL || p >= limit || str[p] == PAD
  }

  /** The first stopping place at or after `p`. */
  function StopFrom(str: seq<bv8>, limit: int, p: nat): (q: nat)
    requires p < |str| && NUL in str[p..]
    ensures p <= q < |str| && Ends(str, limit, q)
    ensures forall k :: p <= k < q ==> !Ends(str, limit, k)
    decreases |str| - p
  {
    if Ends(str, limit, p) then p else StopFrom(str, limit, p + 1)
  }

  /** What a character stands for: nothing outside the alphabet, and a space is a plus. */
  function Letter(c: bv8): (vs: seq<bv8>)
    ensures |vs| <= 1 && forall i :: 0 <= i < |vs| ==> vs[i] < 64
  {
    var d := if c == SPACE then PLUS else c;
    if InAlphabet(d) then [Value(d)] else []
  }

  function Letters(cs: seq<bv8>): (vs: seq<bv8>)
    ensures |vs| <= |cs| && forall i :: 0 <= i < |vs| ==> vs[i] < 64
  {
    if cs == [] then [] else Letters(cs[..|cs| - 1]) + Letter(cs[|cs| - 1])
  }

  datatype Decoded = Invalid | Octets(bs: seq<bv8>)

  /** What `decode_b64` means for a NUL-terminated string and a length limit. */
  function Decode(str: seq<bv8>, limit: int): Decoded
    requires NUL in str
  {
    var q := StopFrom(str, limit, 0);
    if str[q] == PAD && |Letters(str[..q])| % 4 == 1 then Invalid else Octets(WholeOctets(Heard(str, q)))
  }

  /** The bits of the alphabet characters before `q`. */
  function Heard(cs: seq<bv8>, q: nat): (r: seq<bool>)
    requires q <= |cs|
    ensures |r| == 6 * |Letters(cs[..q])|
  {
    SextetStream(Letters(cs[..q]))
  }

  // ---------------------------------------------------------------- the two laws

  lemma {:induction false} LetterOfSymbol(v: bv8)
    requires v < 64
    ensures Letter(Symbol(v)) == [v]
  {
    SymbolValue(v);
  }

  /** Characters that stand for sextets decode to just those sextets. */
  lemma {:induction false} LettersOfSymbols(vs: seq<bv8>)
    requires forall i :: 0 <= i < |vs| ==> vs[i] < 64
    ensures Letters(Symbols(vs)) == vs
  {
    hide Symbol, Letter;
    if vs != [] {
      var n := |vs| - 1;
      LettersOfSymbols(vs[..n]);
      assert Symbols(vs)[..n] == Symbols(vs[..n]);
      LetterOfSymbol(vs[n]);
      assert vs == vs[..n] + [vs[n]];
    }
  }

  lemma {:induction false} StopIs(str: seq<bv8>, limit: int, n: nat)
    requires n < |str| && NUL in str && Ends(str, limit, n)
    requires forall k :: 0 <= k < n ==> !Ends(str, limit, k)
    ensures StopFrom(str, limit, 0) == n
  {
    var q := StopFrom(str, limit, 0);
    assert !(q < n) && !(n < q);
  }

  lemma {:induction false} EncodingStop(bs: seq<bv8>, behind: seq<bv8>, limit: int)
    requires limit >= |Encode(bs)|
    ensures NUL in Encode(bs) + [NUL] + behind
    ensures StopFrom(Encode(bs) + [NUL] + behind, limit, 0) == |Chars(bs)|
  {
    var str := Encode(bs) + [NUL] + behind;
    var vs := Regroup(Bits(bs));
    var n := |vs|;
    assert str[|Encode(bs)|] == NUL;
    forall k | 0 <= k < n ensures !Ends(str, limit, k) {
      assert str[k] == Symbol(vs[k]);
      SymbolValue(vs[k]);
    }
    StopIs(str, limit, n);
  }

  lemma {:induction false} SextetCount(n: nat)
    ensures 0 <= 6 * ((8 * n + 5) / 6) - 8 * n < 6 && (8 * n + 5) / 6 % 4 != 1
  {
    var k, m := n / 3, n % 3;
    assert (8 * n + 5) / 6 == 4 * k + (8 * m + 5) / 6;
  }

  lemma {:induction false} OctetsOfSextets(bs: seq<bv8>)
    ensures WholeOctets(SextetStream(Regroup(Bits(bs)))) == bs
  {
    SextetCount(|bs|);
    StreamOfRegroup(Bits(bs));
    WholeOctetsOfBits(bs, Zeros(6 * ((8 * |bs| + 5) / 6) - 8 * |bs|));
  }

  lemma {:induction false} LettersOfChars(bs: seq<bv8>)
    ensures Letters(Chars(bs)) == Regroup(Bits(bs))
  {
    LettersOfSymbols(Regroup(Bits(bs)));
  }

  /** Decoding an encoding gives the octets back, whatever follows its terminating NUL and
      for every length limit that does not cut it short. */
  lemma {:induction false} RoundTrip(bs: seq<bv8>, behind: seq<bv8>, limit: int)
    requires limit >= |Encode(bs)|
    ensures Decode(Encode(bs) + [NUL] + behind, limit) == Octets(bs)
  {
    hide Regroup, Bits, WholeOctets, SextetStream, Letters, StopFrom;
    EncodingStop(bs, behind, limit);
    LettersOfChars(bs);
    OctetsOfSextets(bs);
    SextetCount(|bs|);
    assert (Encode(bs) + [NUL] + behind)[..|Chars(bs)|] == Chars(bs);
  }

  /** The canonical padded strings: alphabet characters, `p` padding characters that complete
      a group of four, and zeros in the bits that carry no data. */
  ghost predicate Canonical(s: seq<bv8>, p: nat) {
    && |s| % 4 == 0 && p <= 2 && p <= |s|
    && (forall i :: 0 <= i < |s| - p ==> InAlphabet(s[i]))
    && (forall i :: |s| - p <= i < |s| ==> s[i] == PAD)
    && (p == 1 ==> Value(s[|s| - 2]) & 0x03 == 0)
    && (p == 2 ==> Value(s[|s| - 3]) & 0x0F == 0)
  }

  lemma {:induction false} LettersOfAlphabet(cs: seq<bv8>)
    requires forall i :: 0 <= i < |cs| ==> InAlphabet(cs[i])
    ensures |Letters(cs)| == |cs| && Symbols(Letters(cs)) == cs
    ensures forall i :: 0 <= i < |cs| ==> Letters(cs)[i] == Value(cs[i])
  {
    forall i | 0 <= i < |cs| ensures Value(cs[i]) < 64 && Symbol(Value(cs[i])) == cs[i] {
      ValueSymbol(cs[i]);
    }
    var vs := seq(|cs|, i requires 0 <= i < |cs| => Value(cs[i]));
    assert Symbols(vs) == cs;
    LettersOfSymbols(vs);
  }

  lemma {:induction false} OctetBitsOfNumber(r: seq<bool>)
    requires |r| == 8
    ensures OctetBits(Number(r)) == r
  {
    NumberOfEight(r);
  }

  lemma {:induction false} BitsOfWholeOctets(r: seq<bool>, j: nat)
    requires 8 * j <= |r| < 8 * j + 8
    ensures Bits(WholeOctets(r)) == r[..8 * j]
  {
    if j > 0 {
      BitsOfWholeOctets(r[8..], j - 1);
      OctetBitsOfNumber(r[..8]);
      assert r[..8] + r[8..][..8 * (j - 1)] == r[..8 * j];
    }
  }

  /** The second string is the first with every space replaced by a plus. */
  predicate Plussed(str: seq<bv8>, plus: seq<bv8>) {
    |plus| == |str| && forall i :: 0 <= i < |str| ==> plus[i] == PlusFor(str[i])
  }

  function PlusFor(c: bv8): bv8 {
    if c == 32 then 43 else c
  }

  lemma {:induction false} PlussedLetters(cs: seq<bv8>, ds: seq<bv8>)
    requires Plussed(cs, ds)
    ensures Letters(ds) == Letters(cs)
  {
    if cs != [] {
      var n := |cs| - 1;
      PlussedLetters(cs[..n], ds[..n]);
      PlussedLetter(cs[n]);
      hide Letter, PlusFor;
    }
  }

  lemma {:induction false} PlussedLetter(c: bv8)
    ensures Letter(PlusFor(c)) == Letter(c)
    ensures PlusFor(c) == NUL <==> c == NUL
    ensures PlusFor(c) == PAD <==> c == PAD
  {
  }

  /** A space decodes like a plus: replacing all of them changes nothing. */
  lemma {:induction false} SpaceIsPlus(str: seq<bv8>, plus: seq<bv8>, limit: int)
    requires NUL in str && Plussed(str, plus)
    ensures NUL in plus && Decode(plus, limit) == Decode(str, limit)
  {
    hide Letters, StopFrom, SextetStream, WholeOctets, PlusFor;
    forall k | 0 <= k < |str| ensures plus[k] == NUL <==> str[k] == NUL
      ensures plus[k] == PAD <==> str[k] == PAD
    {
      PlussedLetter(str[k]);
    }
    var i :| 0 <= i < |str| && str[i] == NUL;
    assert plus[i] == NUL;
    var q := StopFrom(str, limit, 0);
    assert forall k :: 0 <= k < |str| ==> (Ends(plus, limit, k) <==> Ends(str, limit, k));
    StopIs(plus, limit, q);
    PlussedLetters(str[..q], plus[..q]);
  }

  /** With `n` alphabet characters before the stop, decoding fails exactly in front of a padding
      character with one of them left over; else it gives `6 * n / 8` octets, whose bits are the
      first bits of those characters. */
  lemma {:induction false} DecodeExact(str: seq<bv8>, limit: int)
    requires NUL in str
    ensures var q := StopFrom(str, limit, 0); var n := |Letters(str[..q])|;
      && (Decode(str, limit).Invalid? <==> str[q] == PAD && n % 4 == 1)
      && (Decode(str, limit).Octets? ==>
            && |Decode(str, limit).bs| == 6 * n / 8
            && Bits(Decode(str, limit).bs) == Heard(str, q)[..8 * (6 * n / 8)])
  {
    hide Letters, SextetStream, WholeOctets, Bits, StopFrom;
    var q := StopFrom(str, limit, 0);
    BitsOfWholeOctets(Heard(str, q), |Heard(str, q)| / 8);
  }

  lemma {:induction false} LastSextet(vs: seq<bv8>)
    requires vs != []
    ensures SextetStream(vs)[6 * |vs| - 6..] == SextetBits(vs[|vs| - 1])
  {
    var n := |vs| - 1;
    assert vs == vs[..n] + [vs[n]];
    SextetStreamAppend(vs[..n], vs[n]);
  }

  lemma {:induction false} LowBits(v: bv8)
    ensures v & 0x03 == 0 <==> SextetBits(v)[4..] == Zeros(2)
    ensures v & 0x0F == 0 <==> SextetBits(v)[2..] == Zeros(4)
  {
    var r, x, y := SextetBits(v), SextetBits(v)[4..], SextetBits(v)[2..];
    assert x[0] == r[4] && x[1] == r[5];
    assert y[0] == r[2] && y[1] == r[3] && y[2] == r[4] && y[3] == r[5];
  }

  lemma {:induction false} StreamInjective(us: seq<bv8>, vs: seq<bv8>)
    requires forall i :: 0 <= i < |us| ==> us[i] < 64
    requires forall i :: 0 <= i < |vs| ==> vs[i] < 64
    requires SextetStream(us) == SextetStream(vs)
    ensures us == vs
  {
    RegroupStream(us, []);
    RegroupStream(vs, []);
    assert us + Regroup([]) == us && vs + Regroup([]) == vs;
  }

  /** Bits that end in the zeros which regrouping would add anyway. */
  lemma {:induction false} RegroupOfPrefix(vs: seq<bv8>, k: nat)
    requires forall i :: 0 <= i < |vs| ==> vs[i] < 64
    requires k <= 6 * |vs| < k + 6
    requires SextetStream(vs)[k..] == Zeros(6 * |vs| - k)
    ensures Regroup(SextetStream(vs)[..k]) == vs
  {
    var r := SextetStream(vs);
    StreamOfRegroup(r[..k]);
    assert r == r[..k] + r[k..];
    assert (k + 5) / 6 == |vs|;
    StreamInjective(Regroup(r[..k]), vs);
  }

  lemma {:induction false} CanonicalStop(s: seq<bv8>, p: nat, behind: seq<bv8>, limit: int)
    requires Canonical(s, p) && limit >= |s|
    ensures NUL in s + [NUL] + behind && StopFrom(s + [NUL] + behind, limit, 0) == |s| - p
  {
    var str := s + [NUL] + behind;
    assert str[|s|] == NUL;
    StopIs(str, limit, |s| - p);
  }

  /** The end of the last six of a sequence is the end of the sequence. */
  lemma {:induction false} EndOfLastSix<T>(r: seq<T>, last: seq<T>, z: nat)
    requires |r| >= 6 && z <= 6 && last == r[|r| - 6..]
    ensures last[6 - z..] == r[|r| - z..]
  {
  }

  lemma {:induction false} SuffixOfSum<T>(a: seq<T>, b: seq<T>)
    ensures (a + b)[|a|..] == b
  {
  }

  lemma {:induction false} LowZeros(v: bv8, p: nat)
    requires (p == 1 && v & 0x03 == 0) || (p == 2 && v & 0x0F == 0)
    ensures SextetBits(v)[6 - 2 * p..] == Zeros(2 * p)
  {
    LowBits(v);
  }

  lemma {:induction false} StreamTail(vs: seq<bv8>, z: nat)
    requires vs != [] && z <= 6
    ensures SextetStream(vs)[6 * |vs| - z..] == SextetBits(vs[|vs| - 1])[6 - z..]
  {
    assert |SextetStream(vs)| == 6 * |vs|;
    LastSextet(vs);
    hide *;
    EndOfLastSix(SextetStream(vs), SextetBits(vs[|vs| - 1]), z);
  }

  /** The last `2 * p` bits of a canonical string are zero. */
  lemma {:induction false} CanonicalTail(s: seq<bv8>, p: nat)
    requires Canonical(s, p)
    ensures var r := SextetStream(Letters(s[..|s| - p]));
      |r| == 6 * (|s| - p) && 2 * p <= |r| && r[|r| - 2 * p..] == Zeros(2 * p)
  {
    hide SextetStream, SextetBits, Letters, Value, InAlphabet;
    var n := |s| - p;
    LettersOfAlphabet(s[..n]);
    if p > 0 {
      var vs := Letters(s[..n]);
      assert s[..n][n - 1] == s[n - 1];
      LowZeros(vs[n - 1], p);
      StreamTail(vs, 2 * p);
    }
  }

  /** Decoding a canonical string and regrouping gives its sextets back. */
  lemma {:induction false} CanonicalSextets(s: seq<bv8>, p: nat)
    requires Canonical(s, p)
    ensures var vs := Letters(s[..|s| - p]); var bs := WholeOctets(SextetStream(vs));
      |bs| == |s| / 4 * 3 - p && Regroup(Bits(bs)) == vs
  {
    var q := |s| / 4;
    assert |s| == 4 * q;
    CanonicalTail(s, p);
    var vs := Letters(s[..|s| - p]);
    var r := SextetStream(vs);
    var j := 3 * q - p;
    assert |r| == 8 * j + 2 * p;
    BitsOfWholeOctets(r, j);
    RegroupOfPrefix(vs, 8 * j);
  }

  lemma {:induction false} PadCountOfQuads(q: nat, p: nat)
    requires p <= 2 && p <= 3 * q
    ensures PadCount(3 * q - p) == p
  {
  }

  lemma {:induction false} CanonicalChars(s: seq<bv8>, p: nat)
    requires Canonical(s, p)
    ensures Chars(WholeOctets(SextetStream(Letters(s[..|s| - p])))) == s[..|s| - p]
  {
    CanonicalSextets(s, p);
    LettersOfAlphabet(s[..|s| - p]);
  }

  lemma {:induction false} CanonicalSplit(s: seq<bv8>, p: nat)
    requires Canonical(s, p)
    ensures s == s[..|s| - p] + Padding(p)
  {
  }

  lemma {:induction false} CanonicalDecode(s: seq<bv8>, p: nat, behind: seq<bv8>, limit: int)
    requires Canonical(s, p) && limit >= |s|
    ensures NUL in s + [NUL] + behind
    ensures Decode(s + [NUL] + behind, limit) == Octets(WholeOctets(SextetStream(Letters(s[..|s| - p]))))
  {
    assert |s| == 4 * (|s| / 4);
    LettersOfAlphabet(s[..|s| - p]);
    QuadsNotOne(|s| / 4, p);
    CanonicalStop(s, p, behind, limit);
    hide Letters, SextetStream, WholeOctets, StopFrom, Canonical;
    var n, str := |s| - p, s + [NUL] + behind;
    assert str[..n] == s[..n];
  }

  lemma {:induction false} QuadsNotOne(q: nat, p: nat)
    requires p <= 2 && p <= 4 * q
    ensures (4 * q - p) % 4 != 1
  {
  }

  /** Encoding the decoding of a canonical string gives the string back. */
  lemma {:induction false} CanonicalRoundTrip(s: seq<bv8>, p: nat, behind: seq<bv8>, limit: int)
    requires Canonical(s, p) && limit >= |s|
    ensures NUL in s + [NUL] + behind
    ensures var d := Decode(s + [NUL] + behind, limit); d.Octets? && Encode(d.bs) == s
  {
    CanonicalDecode(s, p, behind, limit);
    CanonicalChars(s, p);
    CanonicalSextets(s, p);
    PadCountOfQuads(|s| / 4, p);
    CanonicalSplit(s, p);
  }

  lemma {:induction false} TailGroups(k: nat, p: nat)
    requires 1 <= p <= 2
    ensures (8 * (3 * k + 3 - p) + 5) / 6 == 4 * k + 4 - p
  {
    if p == 1 {
      assert 8 * (3 * k + 3 - p) + 5 == 6 * (4 * k + 3) + 3;
    } else {
      assert 8 * (3 * k + 3 - p) + 5 == 6 * (4 * k + 2) + 1;
    }
  }

  /** The zero bits at the end of an encoding of `3 * k + 3 - p` octets. */
  lemma {:induction false} RegroupTail(bs: seq<bv8>, k: nat, p: nat)
    requires 1 <= p <= 2 && |bs| == 3 * k + 3 - p
    ensures var vs := Regroup(Bits(bs));
      vs != [] && SextetBits(vs[|vs| - 1])[6 - 2 * p..] == Zeros(2 * p)
  {
    hide *;
    var vs := Regroup(Bits(bs));
    TailGroups(k, p);
    assert (|Bits(bs)| + 5) / 6 == 4 * k + 4 - p;
    StreamOfRegroup(Bits(bs));
    assert 6 * (4 * k + 4 - p) - |Bits(bs)| == 2 * p;
    StreamTail(vs, 2 * p);
    SuffixOfSum(Bits(bs), Zeros(2 * p));
  }

  lemma {:induction false} CharsInAlphabet(bs: seq<bv8>)
    ensures |Chars(bs)| == |Regroup(Bits(bs))|
    ensures forall i :: 0 <= i < |Chars(bs)| ==> InAlphabet(Chars(bs)[i]) && Value(Chars(bs)[i]) == Regroup(Bits(bs))[i]
  {
    var vs := Regroup(Bits(bs));
    forall i | 0 <= i < |vs| ensures InAlphabet(Chars(bs)[i]) && Value(Chars(bs)[i]) == vs[i] {
      SymbolValue(vs[i]);
    }
  }

  /** Every encoding is canonical, so the two functions are inverse bijections. */
  lemma {:induction false} EncodeIsCanonical(bs: seq<bv8>)
    ensures Canonical(Encode(bs), PadCount(|bs|))
  {
    hide Regroup, Bits, SextetBits, Encode, Chars;
    EncodedShape(bs);
    CharsInAlphabet(bs);
    var p, vs := PadCount(|bs|), Regroup(Bits(bs));
    if p > 0 {
      RegroupTail(bs, |bs| / 3, p);
      LowBits(vs[|vs| - 1]);
      assert Encode(bs)[|vs| - 1] == Chars(bs)[|vs| - 1];
    }
  }

  lemma {:induction false} EncodedShape(bs: seq<bv8>)
    ensures var s, n := Encode(bs), |Chars(bs)|;
      |s| % 4 == 0 && |s| == n + PadCount(|bs|)
      && (forall i :: 0 <= i < n ==> s[i] == Chars(bs)[i]) && (forall i :: n <= i < |s| ==> s[i] == PAD)
  {
    hide Chars, PadCount;
    EncodeLength(bs);
    FourTimes((|bs| + 2) / 3);
  }

  lemma {:induction false} FourTimes(x: nat)
    ensures 4 * x % 4 == 0
  {
  }
}
