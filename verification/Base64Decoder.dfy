/** The lenient decoder of `lib/utils.c`: the cells of the destination fill up six bits at a time. */
module Base64Decoder {
  import opened BitStrings
  import opened Base64

  /** Appending bits only extends the octets that were not whole yet. */
  lemma {:induction false} WholeOctetsExtend(r: seq<bool>, j: nat, x: seq<bool>)
    requires 8 * j <= |r| < 8 * j + 8
    ensures WholeOctets(r + x) == WholeOctets(r) + WholeOctets(r[8 * j..] + x)
  {
    var full, t := r[..8 * j], r[8 * j..];
    assert r == full + t && r + x == full + (t + x);
    WholeOctetsConcat(full, t);
    WholeOctetsConcat(full, t + x);
  }

  /** An octet whose first bits are `t`. */
  function Partial(t: seq<bool>): bv8
    requires |t| < 8
  {
    Number(t + Zeros(8 - |t|))
  }

  lemma {:induction false} PartialFresh(v: bv8)
    requires v < 64
    ensures Partial(SextetBits(v)) == v << 2
  {
    NumberOfEight(SextetBits(v) + Zeros(2));
  }

  lemma {:induction false} PartialAfterSix(t: seq<bool>, v: bv8)
    requires |t| == 6 && v < 64
    ensures Number(t + SextetBits(v)[..2]) == Partial(t) | (v >> 4)
    ensures Partial(SextetBits(v)[2..]) == (v & 0x0F) << 4
  {
    NumberOfEight(t + SextetBits(v)[..2]);
    NumberOfEight(t + Zeros(2));
    NumberOfEight(SextetBits(v)[2..] + Zeros(4));
  }

  lemma {:induction false} PartialAfterFour(t: seq<bool>, v: bv8)
    requires |t| == 4 && v < 64
    ensures Number(t + SextetBits(v)[..4]) == Partial(t) | (v >> 2)
    ensures Partial(SextetBits(v)[4..]) == (v & 0x03) << 6
  {
    NumberOfEight(t + SextetBits(v)[..4]);
    NumberOfEight(t + Zeros(4));
    NumberOfEight(SextetBits(v)[4..] + Zeros(6));
  }

  lemma {:induction false} PartialAfterTwo(t: seq<bool>, v: bv8)
    requires |t| == 2 && v < 64
    ensures Number(t + SextetBits(v)) == Partial(t) | v
  {
    NumberOfEight(t + SextetBits(v));
    NumberOfEight(t + Zeros(6));
  }

  /** The output buffer after reading the bits `r`: whole octets, then `w` bits still waiting. */
  ghost predicate Holds(cells: seq<bv8>, j: nat, r: seq<bool>, w: nat) {
    && |r| == 8 * j + w && w < 8 && j < |cells|
    && cells[..j] == WholeOctets(r)
    && (w != 0 ==> cells[j] == Partial(r[8 * j..]))
  }

  lemma {:induction false} HoldsFresh(cells: seq<bv8>, j: nat, r: seq<bool>, v: bv8)
    requires v < 64 && Holds(cells, j, r, 0)
    ensures Holds(cells[j := v << 2], j, r + SextetBits(v), 6)
  {
    var x := SextetBits(v);
    WholeOctetsExtend(r, j, x);
    assert r[8 * j..] + x == x && (r + x)[8 * j..] == x;
    PartialFresh(v);
  }

  /** `o` completes the waiting octet and `p` is the new waiting cell, if there is one. */
  lemma {:induction false} HoldsExtend(cells: seq<bv8>, j: nat, r: seq<bool>, w: nat, x: seq<bool>, o: bv8, p: bv8)
    requires |x| == 6 && 2 <= w && Holds(cells, j, r, w) && j + 1 < |cells|
    requires o == Number(r[8 * j..] + x[..8 - w])
    requires w != 2 ==> p == Partial(x[8 - w..])
    ensures Holds(cells[j := o][j + 1 := p], j + 1, r + x, w - 2)
  {
    var t, y := r[8 * j..] + x[..8 - w], x[8 - w..];
    WholeOctetsExtend(r, j, x);
    assert r[8 * j..] + x == t + y;
    WholeOctetsCons(t, y);
    assert (r + x)[8 * (j + 1)..] == y;
    assert cells[j := o][j + 1 := p][..j + 1] == cells[..j] + [o];
  }

  lemma {:induction false} HoldsAfterSix(cells: seq<bv8>, j: nat, r: seq<bool>, v: bv8)
    requires v < 64 && Holds(cells, j, r, 6) && j + 1 < |cells|
    ensures Holds(cells[j := cells[j] | (v >> 4)][j + 1 := (v & 0x0F) << 4], j + 1, r + SextetBits(v), 4)
  {
    PartialAfterSix(r[8 * j..], v);
    HoldsExtend(cells, j, r, 6, SextetBits(v), cells[j] | (v >> 4), (v & 0x0F) << 4);
  }

  lemma {:induction false} HoldsAfterFour(cells: seq<bv8>, j: nat, r: seq<bool>, v: bv8)
    requires v < 64 && Holds(cells, j, r, 4) && j + 1 < |cells|
    ensures Holds(cells[j := cells[j] | (v >> 2)][j + 1 := (v & 0x03) << 6], j + 1, r + SextetBits(v), 2)
  {
    PartialAfterFour(r[8 * j..], v);
    HoldsExtend(cells, j, r, 4, SextetBits(v), cells[j] | (v >> 2), (v & 0x03) << 6);
  }

  lemma {:induction false} HoldsAfterTwo(cells: seq<bv8>, j: nat, r: seq<bool>, v: bv8)
    requires v < 64 && Holds(cells, j, r, 2) && j + 1 < |cells|
    ensures Holds(cells[j := cells[j] | v], j + 1, r + SextetBits(v), 0)
  {
    var x := SextetBits(v);
    PartialAfterTwo(r[8 * j..], v);
    assert x[..6] == x;
    HoldsExtend(cells, j, r, 2, x, cells[j] | v, cells[j + 1]);
    assert cells[j := cells[j] | v][j + 1 := cells[j + 1]] == cells[j := cells[j] | v];
  }

  /** How many bits wait for their octet to be completed after `i` sextets. */
  function Waiting(i: nat): (w: nat) {
    if i % 4 == 0 then 0 else 8 - 2 * (i % 4)
  }

  /** Complete the waiting octet and start the next one. */
  method PutTwo(result: array<bv8>, j: nat, o: bv8, p: bv8) returns (k: nat)
    requires j + 1 < result.Length
    modifies result
    ensures k == j + 1 && result[..] == old(result[..])[j := o][j + 1 := p]
  {
    k := j;
    result[k] := o;
    k := k + 1;
    result[k] := p;
  }

  /** One turn of the decoder's switch on `i % 4`. */
  method Feed(result: array<bv8>, i: nat, j: nat, v: bv8, ghost r: seq<bool>) returns (k: nat)
    requires v < 64 && Holds(result[..], j, r, Waiting(i)) && |r| + 6 < 8 * result.Length
    modifies result
    ensures Holds(result[..], k, r + SextetBits(v), Waiting(i + 1))
  {
    hide Partial, WholeOctets, SextetBits, Number;
    if i % 4 == 0 {
      HoldsFresh(result[..], j, r, v);
      result[j] := v << 2;
      k := j;
    } else if i % 4 == 1 {
      HoldsAfterSix(result[..], j, r, v);
      k := PutTwo(result, j, result[j] | (v >> 4), (v & 0x0F) << 4);
    } else if i % 4 == 2 {
      HoldsAfterFour(result[..], j, r, v);
      k := PutTwo(result, j, result[j] | (v >> 2), (v & 0x03) << 6);
    } else {
      HoldsAfterTwo(result[..], j, r, v);
      result[j] := result[j] | v;
      k := j + 1;
    }
  }

  lemma {:induction false} LettersStep(cs: seq<bv8>, q: nat)
    requires q < |cs|
    ensures Letters(cs[..q + 1]) == Letters(cs[..q]) + Letter(cs[q])
  {
    assert cs[..q + 1][..q] == cs[..q];
  }

  lemma {:induction false} HeardStep(cs: seq<bv8>, q: nat)
    requires q < |cs|
    ensures Letter(cs[q]) == [] ==> Heard(cs, q + 1) == Heard(cs, q)
    ensures Letter(cs[q]) != [] ==> Heard(cs, q + 1) == Heard(cs, q) + SextetBits(Letter(cs[q])[0])
  {
    LettersStep(cs, q);
    if Letter(cs[q]) != [] {
      SextetStreamAppend(Letters(cs[..q]), Letter(cs[q])[0]);
    } else {
      assert Letters(cs[..q + 1]) == Letters(cs[..q]);
    }
  }

  lemma {:induction false} HeardPrefix(cs: seq<bv8>, p: nat, q: nat)
    requires p <= q <= |cs|
    ensures |Heard(cs, p)| <= |Heard(cs, q)|
    decreases q
  {
    hide Letters, SextetStream, Heard;
    if p < q {
      HeardPrefix(cs, p, q - 1);
      HeardStep(cs, q - 1);
    }
  }

  /** The body of the decoder's loop: the character at `q` of the text is read. */
  method ReadOne(desc: array<bv8>, c: bv8, i: nat, j: nat, ghost text: seq<bv8>, ghost q: nat)
    returns (i': nat, j': nat)
    requires q < |text| && text[q] == c && |Heard(text, q + 1)| < 8 * desc.Length
    requires 6 * i == |Heard(text, q)| && Holds(desc[..], j, Heard(text, q), Waiting(i))
    modifies desc
    ensures 6 * i' == |Heard(text, q + 1)| && Holds(desc[..], j', Heard(text, q + 1), Waiting(i'))
  {
    i', j' := i, j;
    HeardStep(text, q);
    var ch := if c == SPACE then PLUS else c;
    if InAlphabet(ch) {
      j' := Feed(desc, i, j, Value(ch), Heard(text, q));
      i' := i + 1;
    }
  }

  /** The decoder's main loop; `q` is where it stopped. */
  method DecodeLoop(desc: array<bv8>, str: array<bv8>, length: int) returns (q: nat, i: nat, j: nat)
    requires desc != str && NUL in str[..]
    requires |Heard(str[..], StopFrom(str[..], length, 0))| < 8 * desc.Length
    modifies desc
    ensures q == StopFrom(str[..], length, 0) && 6 * i == |Heard(str[..], q)|
    ensures Holds(desc[..], j, Heard(str[..], q), Waiting(i))
  {
    q, i, j := 0, 0, 0;
    var left := length;
    ghost var text := str[..];
    ghost var stop := StopFrom(text, length, 0);
    while str[q] != NUL && left > 0 && str[q] != PAD
      invariant q <= stop && left == length - q && str[..] == text
      invariant 6 * i == |Heard(text, q)| && Holds(desc[..], j, Heard(text, q), Waiting(i))
      decreases stop - q
    {
      assert !Ends(text, length, q);
      HeardPrefix(text, q + 1, stop);
      i, j := ReadOne(desc, str[q], i, j, text, q);
      q, left := q + 1, left - 1;
    }
    assert Ends(text, length, q);
  }

  /** How many cells `decode_b64` writes to: the octets and a NUL, and one more cell in front of a
      padding character with two characters left over. */
  function Room(str: seq<bv8>, limit: int): nat
    requires NUL in str
  {
    var q := StopFrom(str, limit, 0);
    var n := |Letters(str[..q])|;
    6 * n / 8 + if str[q] == PAD && n % 4 == 2 then 2 else 1
  }

  /** `decode_b64`. With no destination, or with a single left-over character in front of a
      padding character, the result is -1; otherwise the octets and a terminating NUL are written. */
  method DecodeB64(desc: array?<bv8>, str: array<bv8>, length: int) returns (n: int)
    requires desc != str && NUL in str[..]
    requires desc != null ==> Room(str[..], length) <= desc.Length
    modifies desc
    ensures desc == null ==> n == -1
    ensures desc != null ==> (n == -1 <==> Decode(old(str[..]), length).Invalid?)
    ensures desc != null && n != -1 ==>
      0 <= n < desc.Length && Decode(old(str[..]), length) == Octets(desc[..n]) && desc[n] == NUL
  {
    if desc == null {
      return -1;
    }
    ghost var text := str[..];
    var q, i, j := DecodeLoop(desc, str, length);
    ghost var octets := desc[..j];
    var k := j;
    if str[q] == PAD {
      if i % 4 == 1 {
        return -1;
      }
      if i % 4 == 2 {
        k := k + 1;
      }
      if i % 4 == 2 || i % 4 == 3 {
        desc[k] := 0;
      }
    }
    desc[j] := NUL;
    assert desc[..j] == octets;
    return j;
  }
}
