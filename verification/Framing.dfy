/** The loop of `tcp_client_handler` that cuts one read into frames. */
module Framing {
  import opened Device
  import opened Wire

  const FIRST_COMMAND := 0x8801
  const LAST_COMMAND := 0x88A2

  function CommandAt(msg: bytes, p: nat): u16
    requires p + 4 <= |msg|
  {
    GetU16(msg[p..p + 2])
  }

  function LengthAt(msg: bytes, p: nat): u16
    requires p + 4 <= |msg|
  {
    GetU16(msg[p + 2..p + 4])
  }

  /** `check_tcp_pkt_valid` on what is left of the read. */
  predicate PacketValid(msg: bytes, p: nat, nread: nat)
    requires p < nread <= |msg| && p + 4 <= |msg|
  {
    FIRST_COMMAND <= CommandAt(msg, p) < LAST_COMMAND && LengthAt(msg, p) <= nread - p
  }

  /** `*used` after `deal_tcp_packet`: the frame, or everything left if it is invalid. */
  function Used(msg: bytes, p: nat, nread: nat): (u: nat)
    requires p < nread <= |msg| && p + 4 <= |msg|
    ensures p + u <= nread
  {
    if PacketValid(msg, p, nread) then LengthAt(msg, p) else nread - p
  }

  /** Where the loop stands after `n` turns. `msg` is the whole receive buffer; a header that reaches
      behind it cannot be read, and the model goes no further there. */
  function PositionAfter(msg: bytes, nread: nat, n: nat): (p: nat)
    requires nread <= |msg|
    ensures p <= nread
  {
    if n == 0 then 0
    else
      var p := PositionAfter(msg, nread, n - 1);
      if p < nread && p + 4 <= |msg| then p + Used(msg, p, nread) else p
  }

  /** What becomes of the loop from position `p` on: the frames it dispatches, and where a frame
      of length zero keeps it forever or a header reaches behind the buffer, if anywhere. */
  datatype Outcome =
    | Done(dispatched: seq<nat>)
    | Stuck(dispatched: seq<nat>, at: nat)
    | Overrun(dispatched: seq<nat>, at: nat)

  function Consume(msg: bytes, p: nat, nread: nat): (o: Outcome)
    requires p <= nread <= |msg|
    ensures o.Overrun? ==> p <= o.at < nread && |msg| < o.at + 4
    decreases nread - p
  {
    if p == nread then Done([])
    else if |msg| < p + 4 then Overrun([], p)
    else if !PacketValid(msg, p, nread) then Done([])
    else if LengthAt(msg, p) == 0 then Stuck([], p)
    else
      var rest := Consume(msg, p + LengthAt(msg, p), nread);
      rest.(dispatched := [p] + rest.dispatched)
  }

  /** The outcome with frames dispatched before. */
  function After(ps: seq<nat>, o: Outcome): Outcome {
    o.(dispatched := ps + o.dispatched)
  }

  /** The loop. A turn that uses nothing would be repeated forever; the model stops there. */
  method ConsumeLoop(msg: bytes, nread: nat) returns (dispatched: seq<nat>, nwrite: nat)
    requires nread <= |msg|
    ensures match Consume(msg, 0, nread)
      case Done(ps) => dispatched == ps && nwrite == nread
      case Stuck(ps, at) => dispatched == ps && nwrite == at < nread
      case Overrun(ps, at) => dispatched == ps && nwrite == at < nread
  {
    hide PacketValid, LengthAt;
    dispatched, nwrite := [], 0;
    while nwrite < nread
      invariant nwrite <= nread
      invariant After(dispatched, Consume(msg, nwrite, nread)) == Consume(msg, 0, nread)
    {
      assert dispatched + [] == dispatched;
      if |msg| < nwrite + 4 {
        return;
      }
      var valid := PacketValid(msg, nwrite, nread);
      var used := Used(msg, nwrite, nread);
      if valid {
        if used == 0 {
          return;
        }
        ghost var rest := Consume(msg, nwrite + used, nread).dispatched;
        assert dispatched + ([nwrite] + rest) == (dispatched + [nwrite]) + rest;
        dispatched := dispatched + [nwrite];
      }
      nwrite := nwrite + used;
    }
    assert dispatched + [] == dispatched;
  }

  // ---------------------------------------------------------------- when the loop ends

  ghost predicate Terminates(msg: bytes, nread: nat)
    requires nread <= |msg|
  {
    exists n: nat :: PositionAfter(msg, nread, n) == nread
  }

  /** The bytes at `p` are a valid header whose length field is zero. */
  predicate ZeroFrame(msg: bytes, p: nat, nread: nat)
    requires p < nread <= |msg| && p + 4 <= |msg|
  {
    PacketValid(msg, p, nread) && LengthAt(msg, p) == 0
  }

  /** Nothing holds the loop at `p`. */
  predicate Passes(msg: bytes, p: nat, nread: nat)
    requires nread <= |msg|
  {
    p < nread ==> p + 4 <= |msg| && !ZeroFrame(msg, p, nread)
  }

  /** Nothing holds the loop at any place it comes to. */
  ghost predicate NeverHeld(msg: bytes, nread: nat)
    requires nread <= |msg|
  {
    forall n: nat :: Passes(msg, PositionAfter(msg, nread, n), nread)
  }

  lemma {:induction false} StaysPut(msg: bytes, nread: nat, n: nat, m: nat)
    requires nread <= |msg| && n <= m
    requires PositionAfter(msg, nread, n) == nread || !Passes(msg, PositionAfter(msg, nread, n), nread)
    ensures PositionAfter(msg, nread, m) == PositionAfter(msg, nread, n)
    decreases m
  {
    if n < m {
      StaysPut(msg, nread, n, m - 1);
    }
  }

  /** A turn that is not held moves on. */
  lemma {:induction false} MovesOn(msg: bytes, nread: nat, n: nat)
    requires nread <= |msg| && PositionAfter(msg, nread, n) < nread
    requires Passes(msg, PositionAfter(msg, nread, n), nread)
    ensures PositionAfter(msg, nread, n) < PositionAfter(msg, nread, n + 1)
  {
  }

  lemma {:induction false} ReachesEnd(msg: bytes, nread: nat, n: nat) returns (m: nat)
    requires nread <= |msg| && NeverHeld(msg, nread)
    ensures PositionAfter(msg, nread, m) == nread
    decreases nread - PositionAfter(msg, nread, n)
  {
    m := n;
    if PositionAfter(msg, nread, n) < nread {
      assert Passes(msg, PositionAfter(msg, nread, n), nread);
      MovesOn(msg, nread, n);
      m := ReachesEnd(msg, nread, n + 1);
    }
  }

  /** The loop ends exactly if no place it comes to holds a valid header with length zero, or lacks
      the bytes of a header. */
  lemma {:induction false} TerminationExact(msg: bytes, nread: nat)
    requires nread <= |msg|
    ensures Terminates(msg, nread) <==> NeverHeld(msg, nread)
  {
    hide Passes;
    if Terminates(msg, nread) {
      var m: nat :| PositionAfter(msg, nread, m) == nread;
      EndPasses(msg, nread);
      forall n: nat ensures Passes(msg, PositionAfter(msg, nread, n), nread) {
        if !Passes(msg, PositionAfter(msg, nread, n), nread) {
          StaysPut(msg, nread, if m < n then m else n, if m < n then n else m);
        }
      }
    } else if NeverHeld(msg, nread) {
      var m := ReachesEnd(msg, nread, 0);
    }
  }

  lemma {:induction false} EndPasses(msg: bytes, nread: nat)
    requires nread <= |msg|
    ensures Passes(msg, nread, nread)
  {
  }

  /** The outcome says so: from where the loop stands after `n` turns. */
  lemma {:induction false} DoneIffTerminates(msg: bytes, nread: nat, n: nat)
    requires nread <= |msg|
    ensures Terminates(msg, nread) <==> Consume(msg, PositionAfter(msg, nread, n), nread).Done?
    decreases nread - PositionAfter(msg, nread, n)
  {
    var p := PositionAfter(msg, nread, n);
    if p < nread {
      if Passes(msg, p, nread) {
        MovesOn(msg, nread, n);
        DoneIffTerminates(msg, nread, n + 1);
      } else {
        TerminationExact(msg, nread);
      }
    }
  }

  /** A frame whose command is outside 0x8801 to 0x88A1, or that is longer than what is left of the
      read, is not dispatched, and all that is left is dropped with it. */
  lemma {:induction false} InvalidDropsRest(msg: bytes, nread: nat, n: nat)
    requires nread <= |msg| && PositionAfter(msg, nread, n) < nread && PositionAfter(msg, nread, n) + 4 <= |msg|
    requires var p := PositionAfter(msg, nread, n); var cmd, len := CommandAt(msg, p), LengthAt(msg, p);
      cmd < 0x8801 || cmd > 0x88A1 || len > nread - p
    ensures PositionAfter(msg, nread, n + 1) == nread
    ensures Consume(msg, PositionAfter(msg, nread, n), nread) == Done([])
  {
  }

  /** Every other frame is dispatched, and the loop goes on behind it. */
  lemma {:induction false} ValidIsDispatched(msg: bytes, nread: nat, n: nat)
    requires nread <= |msg| && PositionAfter(msg, nread, n) < nread && PositionAfter(msg, nread, n) + 4 <= |msg|
    requires var p := PositionAfter(msg, nread, n); var cmd, len := CommandAt(msg, p), LengthAt(msg, p);
      0x8801 <= cmd <= 0x88A1 && 0 < len <= nread - p
    ensures var p := PositionAfter(msg, nread, n);
      && PositionAfter(msg, nread, n + 1) == p + LengthAt(msg, p)
      && var o := Consume(msg, p, nread); o.dispatched != [] && o.dispatched[0] == p
  {
  }

  /** Two bytes of a command and two zero bytes hold the loop forever. */
  lemma {:induction false} ZeroLengthHangs(behind: bytes)
    ensures !Terminates(U16(0x8811) + U16(0) + behind, 4)
  {
    var msg := U16(0x8811) + U16(0) + behind;
    assert msg[0..2] == U16(0x8811) && msg[2..4] == U16(0);
    GetOfU16(0x8811);
    GetOfU16(0);
    assert PositionAfter(msg, 4, 0) == 0 && !Passes(msg, 0, 4);
    TerminationExact(msg, 4);
  }

  // ---------------------------------------------------------------- reads made of whole frames

  predicate WholeFrame(f: bytes) {
    && 4 <= |f| < 65536
    && FIRST_COMMAND <= GetU16(f[..2]) < LAST_COMMAND
    && GetU16(f[2..4]) == |f|
  }

  function Concat(fs: seq<bytes>): bytes {
    if fs == [] then [] else fs[0] + Concat(fs[1..])
  }

  /** Where each frame starts, if the first starts at `p`. */
  function Starts(fs: seq<bytes>, p: nat): seq<nat> {
    if fs == [] then [] else [p] + Starts(fs[1..], p + |fs[0]|)
  }

  /** A read made of whole frames is dispatched frame by frame, in order, to its last byte, even if
      it fills the buffer. */
  lemma {:induction false} WholeFrames(before: bytes, fs: seq<bytes>, behind: bytes)
    requires forall i :: 0 <= i < |fs| ==> WholeFrame(fs[i])
    ensures var msg := before + Concat(fs) + behind;
      Consume(msg, |before|, |before| + |Concat(fs)|) == Done(Starts(fs, |before|))
    decreases |fs|
  {
    hide GetU16;
    var msg, p := before + Concat(fs) + behind, |before|;
    if fs != [] {
      var f, rest := fs[0], fs[1..];
      assert msg == (before + f) + Concat(rest) + behind;
      WholeFrames(before + f, rest, behind);
      assert msg == before + f + (Concat(rest) + behind);
      HeaderAt(before, f, Concat(rest) + behind);
    }
  }

  lemma {:induction false} HeaderAt(before: bytes, f: bytes, behind: bytes)
    requires |f| >= 4
    ensures CommandAt(before + f + behind, |before|) == GetU16(f[..2])
    ensures LengthAt(before + f + behind, |before|) == GetU16(f[2..4])
  {
    var msg, p := before + f + behind, |before|;
    assert msg[p..p + 2] == f[..2] && msg[p + 2..p + 4] == f[2..4];
  }
}
