/** The request/reply transactions of `core_daemon/driver_cg_zigbee.c`. One thread makes requests
    and blocks; a monitor thread hands in the frames that arrive. */
module Zigbee {
  import opened Device
  import opened Wire
  import opened StatusLists
  import opened Options

  const MAGIC: u16 := 0x55AA
  const HEADER_LEN := 12
  const BUFFER_LEN := 256
  const TYPE_UNICAST: u16 := 0
  const TYPE_BROADCAST: u16 := 1
  const CMD_DISCOVER: u16 := 0x9101
  const CMD_GET_STATUS: u16 := 0x9111
  const CMD_STATUS: u16 := 0x9112
  const CMD_SET_STATUS: u16 := 0x9113
  const CMD_DO_ACTION: u16 := 0x9131
  const CMD_RESULT: u16 := 0x9191

  type Buffer = b: bytes | |b| == BUFFER_LEN witness seq(BUFFER_LEN, _ => 0)

  /** What the monitor thread has read: the first `len` bytes of its buffer. */
  datatype Frame = Frame(buf: Buffer, len: nat)

  predicate Whole(f: Frame) {
    HEADER_LEN < f.len <= BUFFER_LEN
  }

  function Field(b: bytes, o: nat): u16
    requires o + 2 <= |b|
  {
    GetU16(b[o..o + 2])
  }

  /** A frame that the monitor thread hands in: it has the magic number, and its length is what its
      own header says. The theorems about every run do without. */
  predicate Deliverable(f: Frame) {
    Whole(f) && Field(f.buf, 0) == MAGIC && Field(f.buf, 2) == f.len
  }

  /** The transaction a frame belongs to. */
  function IdOf(f: Frame): u16 {
    Field(f.buf, 10)
  }

  datatype Request =
    | SetRequest(pairs: seq<Pair>)
    | GetRequest(requested: nat)
    | ActRequest(id: u16, param1: u16, param2: u32)

  /** `request` is what the requesting thread is blocked on, `signalled` whether its condition
      variable has been signalled since. */
  datatype Radio = Radio(waiting: bool, transId: u16, recv: Buffer, recvLen: nat,
                         request: Option<Request>, signalled: bool)

  function Filled(x: u8): (b: Buffer)
    ensures forall i :: 0 <= i < BUFFER_LEN ==> b[i] == x
  {
    seq(BUFFER_LEN, _ => x)
  }

  function Initial(): Radio {
    Radio(false, 1, Filled(0), 0, None, false)
  }

  // ---------------------------------------------------------------- judging a reply

  /** The pairs that the parse loop of `sample_get_status` stores. */
  function PairsIn(recv: Buffer, rlen: nat, requested: nat): seq<Pair>
    requires rlen <= BUFFER_LEN - HEADER_LEN
  {
    if ParsedCount(rlen, requested) == 0 then []
    else ListAt(recv[HEADER_LEN..], 4, ParsedCount(rlen, requested))
  }

  /** What a request returns when it has been woken. */
  function Verdict(req: Request, recv: Buffer, recvLen: nat): (v: (Error, seq<Pair>))
    requires HEADER_LEN <= recvLen <= BUFFER_LEN
  {
    match req
    case GetRequest(requested) =>
      if Field(recv, 12) != CMD_STATUS || Field(recv, 14) != recvLen - HEADER_LEN then (InvalidMsg, [])
      else (Ok, PairsIn(recv, recvLen - HEADER_LEN, requested))
    case _ =>
      if Field(recv, 12) != CMD_RESULT || Field(recv, 14) != recvLen - HEADER_LEN then (InvalidMsg, [])
      else if Field(recv, 16) == 0 then (ActFailed, []) else (Ok, [])
  }

  /** `memcpy` into the receive buffer: what is behind the frame stays. */
  function Received(f: Frame, recv: Buffer): (r: Buffer)
    requires Whole(f)
    ensures r[..f.len] == f.buf[..f.len] && r[f.len..] == recv[f.len..]
  {
    f.buf[..f.len] + recv[f.len..]
  }

  // ---------------------------------------------------------------- steps

  datatype Step =
    | Begin(req: Request)
    | Recv(f: Frame)
    | Discover
    | Wake
    | Timeout

  predicate Enabled(r: Radio, s: Step) {
    match s
    case Begin(_) => r.request == None
    case Recv(f) => Whole(f)
    case Discover => true
    case Wake => r.request.Some? && r.signalled
    case Timeout => r.request.Some?
  }

  /** `deal_recv_buf` on the transaction state. */
  function Delivered(r: Radio, f: Frame): Radio
    requires Whole(f)
  {
    if IdOf(f) == 0 || IdOf(f) != r.transId || !r.waiting then r
    else r.(recv := Received(f, r.recv), recvLen := f.len, signalled := true)
  }

  function Ended(r: Radio): Radio {
    r.(waiting := false, transId := (r.transId + 1) % 0x1_0000, request := None, signalled := false)
  }

  function Apply(r: Radio, s: Step): Radio
    requires Enabled(r, s)
  {
    match s
    case Begin(req) => r.(waiting := true, request := Some(req), signalled := false)
    case Recv(f) => Delivered(r, f)
    case Discover => r.(waiting := false)
    case Wake => Ended(r)
    case Timeout => Ended(r)
  }

  predicate Ends(s: Step) {
    s.Wake? || s.Timeout?
  }

  ghost predicate Valid(steps: seq<Step>)
    decreases |steps|, 0
  {
    steps == [] || (Valid(Front(steps)) && Enabled(Run(Front(steps)), Last(steps)))
  }

  ghost function Run(steps: seq<Step>): Radio
    requires Valid(steps)
    decreases |steps|, 1
  {
    if steps == [] then Initial() else Apply(Run(Front(steps)), Last(steps))
  }

  function Front<T>(s: seq<T>): seq<T>
    requires s != []
  {
    s[..|s| - 1]
  }

  function Last<T>(s: seq<T>): T
    requires s != []
  {
    s[|s| - 1]
  }

  /** How many requests have returned. */
  function Count(steps: seq<Step>): nat {
    if steps == [] then 0 else Count(Front(steps)) + if Ends(Last(steps)) then 1 else 0
  }

  /** The id that the `n`th transaction carries. */
  function TransId(n: nat): u16 {
    (n + 1) % 0x1_0000
  }

  predicate Background(s: Step) {
    s.Recv? || s.Discover?
  }

  /** A frame that answers transaction `id`. */
  predicate Answers(s: Step, id: u16) {
    s.Recv? && IdOf(s.f) == id && id != 0
  }

  /** The last of these background steps that answers transaction `id` before any discovery. */
  function LastAnswer(id: u16, seg: seq<Step>): (k: Option<nat>)
    ensures k.Some? ==> k.value < |seg| && Answers(seg[k.value], id)
  {
    if seg == [] then None
    else if Answers(Last(seg), id) && Discover !in Front(seg) then Some(|seg| - 1)
    else LastAnswer(id, Front(seg))
  }

  /** `k` answers, no discovery came before it, and no later answer is without one. */
  predicate IsLastAnswer(id: u16, seg: seq<Step>, k: nat) {
    && k < |seg| && Answers(seg[k], id) && Discover !in seg[..k]
    && forall i :: k < i < |seg| && Answers(seg[i], id) ==> Discover in seg[..i]
  }

  lemma {:induction false} LastAnswerMeans(id: u16, seg: seq<Step>)
    ensures LastAnswer(id, seg).Some? ==> IsLastAnswer(id, seg, LastAnswer(id, seg).value)
    ensures LastAnswer(id, seg).None? ==>
      forall i :: 0 <= i < |seg| && Answers(seg[i], id) ==> Discover in seg[..i]
  {
    if seg != [] {
      LastAnswerMeans(id, Front(seg));
      assert forall i :: 0 <= i < |seg| ==> seg[..i] == Front(seg)[..i];
    }
  }

  // ---------------------------------------------------------------- whole runs

  /** The open request of a run began at `b`, and what came since is `seg`. */
  ghost predicate OpenSince(steps: seq<Step>, r: Radio, b: nat) {
    && b < |steps| && steps[b].Begin? && r.request == Some(steps[b].req)
    && Count(steps[..b]) == Count(steps)
    && Tracks(r, steps[b + 1..])
  }

  ghost predicate Tracks(r: Radio, seg: seq<Step>) {
    && (forall i :: 0 <= i < |seg| ==> Background(seg[i]))
    && (r.waiting <==> Discover !in seg)
    && (r.signalled <==> LastAnswer(r.transId, seg).Some?)
    && (r.signalled ==> Holds(r, seg[LastAnswer(r.transId, seg).value].f))
  }

  predicate Holds(r: Radio, f: Frame) {
    Whole(f) && r.recvLen == f.len && r.recv[..f.len] == f.buf[..f.len]
  }

  /** In every run the transaction id is the number of requests that have returned, plus one,
      modulo 65536. */
  lemma {:induction false} RunIds(steps: seq<Step>)
    requires Valid(steps)
    ensures Run(steps).transId == TransId(Count(steps))
    decreases |steps|
  {
    hide Received, IdOf;
    if steps != [] {
      RunIds(Front(steps));
    }
  }

  /** In every run an open request holds the last frame that answered it. */
  lemma {:induction false} RunInv(steps: seq<Step>) returns (b: nat)
    requires Valid(steps)
    ensures Run(steps).request == None ==> !Run(steps).waiting && !Run(steps).signalled
    ensures Run(steps).request.Some? ==> OpenSince(steps, Run(steps), b)
    decreases |steps|
  {
    hide Apply, OpenSince;
    b := 0;
    if steps != [] {
      var front, s := Front(steps), Last(steps);
      assert steps == front + [s];
      b := RunInv(front);
      var r := Run(front);
      if s.Begin? {
        b := |front|;
        BeginOpens(front, r, s);
      } else if Background(s) && r.request.Some? {
        StaysOpen(front, r, b, s);
      } else {
        StaysShut(r, s);
      }
    }
  }

  lemma {:induction false} BeginOpens(front: seq<Step>, r: Radio, s: Step)
    requires s.Begin? && Enabled(r, s)
    ensures Apply(r, s).request.Some? && OpenSince(front + [s], Apply(r, s), |front|)
  {
    var steps := front + [s];
    assert steps[..|front|] == front && steps[|front| + 1..] == [];
    assert Front(steps) == front && Last(steps) == s;
  }

  lemma {:induction false} StaysOpen(front: seq<Step>, r: Radio, b: nat, s: Step)
    requires OpenSince(front, r, b) && Background(s) && Enabled(r, s)
    ensures Apply(r, s).request.Some? && OpenSince(front + [s], Apply(r, s), b)
  {
    hide Tracks, Count, Apply, Enabled;
    var steps, seg := front + [s], front[b + 1..];
    TrackStep(r, seg, s);
    KeepsRequest(r, s);
    CountKept(front, s);
    assert steps[b] == front[b];
    assert steps[b + 1..] == seg + [s];
    assert steps[..b] == front[..b];
  }

  lemma {:induction false} KeepsRequest(r: Radio, s: Step)
    requires Background(s) && Enabled(r, s)
    ensures Apply(r, s).request == r.request
  {
  }

  lemma {:induction false} CountKept(front: seq<Step>, s: Step)
    requires Background(s)
    ensures Count(front + [s]) == Count(front)
  {
    assert Front(front + [s]) == front && Last(front + [s]) == s;
  }

  lemma {:induction false} StaysShut(r: Radio, s: Step)
    requires Enabled(r, s) && !s.Begin? && (r.request == None ==> !r.waiting && !r.signalled)
    requires Background(s) ==> r.request == None
    ensures var r' := Apply(r, s); r'.request == None && !r'.waiting && !r'.signalled
  {
  }

  lemma {:induction false} TrackStep(r: Radio, seg: seq<Step>, s: Step)
    requires Tracks(r, seg) && Background(s) && Enabled(r, s)
    ensures Tracks(Apply(r, s), seg + [s])
  {
    assert Front(seg + [s]) == seg && Last(seg + [s]) == s;
  }

  /** In every run, a request that is woken has received, while it was open, a frame with its own
      nonzero transaction id; the last such frame before a discovery is what it judges. The frame
      carries the id of none of the 65535 transactions before. */
  lemma {:induction false} WokenByOwnReply(steps: seq<Step>) returns (b: nat, j: nat)
    requires Valid(steps + [Wake])
    ensures b < j < |steps| && steps[b].Begin? && forall i :: b < i < |steps| ==> Background(steps[i])
    ensures Count(steps[..b]) == Count(steps) && IsLastAnswer(TransId(Count(steps)), steps[b + 1..], j - b - 1)
    ensures steps[j].Recv? && IdOf(steps[j].f) == TransId(Count(steps)) != 0
    ensures Valid(steps) && Holds(Run(steps), steps[j].f) && Run(steps).request == Some(steps[b].req)
    ensures forall n: nat :: n < Count(steps) && TransId(n) == IdOf(steps[j].f) ==> Count(steps) - n >= 0x1_0000
  {
    assert Front(steps + [Wake]) == steps;
    b := RunInv(steps);
    RunIds(steps);
    var seg := steps[b + 1..];
    var id := TransId(Count(steps));
    LastAnswerMeans(id, seg);
    j := b + 1 + LastAnswer(id, seg).value;
    forall i | b < i < |steps| ensures Background(steps[i]) {
      assert seg[i - b - 1] == steps[i];
    }
  }

  /** A transaction that carries id 0 can only time out. */
  lemma {:induction false} ZeroIdTimesOut(steps: seq<Step>)
    requires Valid(steps) && Count(steps) % 0x1_0000 == 0xFFFF
    ensures !Enabled(Run(steps), Wake)
  {
    if Enabled(Run(steps), Wake) {
      assert Front(steps + [Wake]) == steps && Last(steps + [Wake]) == Wake;
      var b, j := WokenByOwnReply(steps);
    }
  }

  /** A request is completed by a frame made for transaction `n` exactly when the ids agree modulo
      65536 and are not 0. */
  lemma {:induction false} LateReplyIff(steps: seq<Step>, req: Request, f: Frame, n: nat)
    requires Valid(steps) && Run(steps).request == None && Whole(f) && IdOf(f) == TransId(n)
    ensures Valid(steps + [Begin(req)] + [Recv(f)])
    ensures Enabled(Run(steps + [Begin(req)] + [Recv(f)]), Wake) <==>
      (Count(steps) - n) % 0x1_0000 == 0 && TransId(n) != 0
  {
    RunIds(steps);
    SameId(Count(steps), n);
    hide TransId, Count, IdOf, Received, Tracks, OpenSince;
    var t := steps + [Begin(req)];
    assert Front(t) == steps && Last(t) == Begin(req);
    assert Valid(t) && Run(t) == Apply(Run(steps), Begin(req));
    var u := t + [Recv(f)];
    assert Front(u) == t && Last(u) == Recv(f);
    assert Valid(u) && Run(u) == Apply(Run(t), Recv(f));
  }

  lemma {:induction false} SameId(m: nat, n: nat)
    ensures TransId(m) == TransId(n) <==> (m - n) % 0x1_0000 == 0
  {
    var a, b := (m + 1) / 0x1_0000, (n + 1) / 0x1_0000;
    assert m - n == (a - b) * 0x1_0000 + (TransId(m) - TransId(n));
  }

  // ---------------------------------------------------------------- what the verdict depends on

  /** The verdict is the frame's own: it does not depend on what an earlier frame left behind. */
  ghost predicate OwnVerdict(req: Request, f: Frame)
    requires Whole(f)
  {
    forall x: Buffer, y: Buffer :: Verdict(req, Received(f, x), f.len) == Verdict(req, Received(f, y), f.len)
  }

  lemma {:induction false} FieldOfFrame(f: Frame, x: Buffer, o: nat)
    requires Whole(f) && o + 2 <= f.len
    ensures Field(Received(f, x), o) == Field(f.buf, o)
  {
    assert Received(f, x)[o..o + 2] == f.buf[o..o + 2];
  }

  lemma {:induction false} ListOfFrame(f: Frame, x: Buffer, n: nat)
    requires Whole(f) && HEADER_LEN + 4 + 4 * n <= f.len
    ensures ListAt(Received(f, x)[HEADER_LEN..], 4, n) == ListAt(f.buf[HEADER_LEN..], 4, n)
  {
    var r, p := Received(f, x)[HEADER_LEN..], f.buf[HEADER_LEN..];
    assert forall k :: 0 <= k < f.len - HEADER_LEN ==> r[k] == Received(f, x)[..f.len][HEADER_LEN + k];
    assert forall k :: 0 <= k < f.len - HEADER_LEN ==> p[k] == f.buf[..f.len][HEADER_LEN + k];
    forall i | 0 <= i < n ensures PairAt(r, 4 + 4 * i) == PairAt(p, 4 + 4 * i) {
      var o := 4 + 4 * i;
      assert r[o..o + 2] == p[o..o + 2];
      assert r[o + 2..o + 4] == p[o + 2..o + 4];
    }
  }

  /** The command that answers a request. */
  function AnswerTo(req: Request): u16 {
    if req.GetRequest? then CMD_STATUS else CMD_RESULT
  }

  /** A frame that looks like a good answer as far as it goes, and ends before what decides: inside
      the message header, or, for a RESULT, inside the result field with no bit set so far. */
  predicate Truncated(req: Request, f: Frame)
    requires Whole(f)
  {
    || (f.len == 13 && f.buf[12] == AnswerTo(req) % 256)
    || (f.len == 14 && Field(f.buf, 12) == AnswerTo(req))
    || (f.len == 15 && Field(f.buf, 12) == AnswerTo(req) && f.buf[14] == 3)
    || (f.len == 16 && CompleteResult(req, f))
    || (f.len == 17 && CompleteResult(req, f) && f.buf[16] == 0)
  }

  /** The message header is that of a RESULT of this length. */
  predicate CompleteResult(req: Request, f: Frame)
    requires Whole(f)
  {
    !req.GetRequest? && Field(f.buf, 12) == CMD_RESULT && Field(f.buf, 14) == f.len - HEADER_LEN
  }

  /** A frame is judged by its own bytes exactly if it is not truncated. */
  lemma {:induction false} OwnVerdictIff(req: Request, f: Frame)
    requires Whole(f)
    ensures OwnVerdict(req, f) <==> !Truncated(req, f)
  {
    if Truncated(req, f) {
      StaleVerdict(req, f);
    } else {
      forall x: Buffer, y: Buffer
        ensures Verdict(req, Received(f, x), f.len) == Verdict(req, Received(f, y), f.len)
      {
        SameVerdict(req, f, x, y);
      }
    }
  }

  lemma {:induction false} SameVerdict(req: Request, f: Frame, x: Buffer, y: Buffer)
    requires Whole(f) && !Truncated(req, f)
    ensures Verdict(req, Received(f, x), f.len) == Verdict(req, Received(f, y), f.len)
  {
    if f.len < 16 {
      ShortInvalid(req, f, x);
      ShortInvalid(req, f, y);
    } else {
      LongSame(req, f, x, y);
    }
  }

  /** A frame that ends inside the message header and is not truncated is invalid. */
  lemma {:induction false} ShortInvalid(req: Request, f: Frame, x: Buffer)
    requires Whole(f) && f.len < 16 && !Truncated(req, f)
    ensures Verdict(req, Received(f, x), f.len) == (InvalidMsg, [])
  {
    var r := Received(f, x);
    assert r[12] == f.buf[12];
    FieldBytes(r, 12);
    if f.len >= 14 {
      FieldOfFrame(f, x, 12);
    }
    if f.len == 15 {
      assert r[14] == f.buf[14];
      FieldBytes(r, 14);
    }
  }

  lemma {:induction false} FieldBytes(b: bytes, o: nat)
    requires o + 2 <= |b|
    ensures Field(b, o) % 256 == b[o] && Field(b, o) / 256 == b[o + 1]
  {
    var lo: int, hi: int := b[o], b[o + 1];
    assert (lo + 256 * hi) % 256 == lo && (lo + 256 * hi) / 256 == hi;
  }

  lemma {:induction false} LongSame(req: Request, f: Frame, x: Buffer, y: Buffer)
    requires Whole(f) && f.len >= 16 && !Truncated(req, f)
    ensures Verdict(req, Received(f, x), f.len) == Verdict(req, Received(f, y), f.len)
  {
    FieldOfFrame(f, x, 12);
    FieldOfFrame(f, y, 12);
    FieldOfFrame(f, x, 14);
    FieldOfFrame(f, y, 14);
    if req.GetRequest? {
      var n := ParsedCount(f.len - HEADER_LEN, req.requested);
      if n > 0 {
        ListOfFrame(f, x, n);
        ListOfFrame(f, y, n);
      }
    } else if f.len >= 18 {
      FieldOfFrame(f, x, 16);
      FieldOfFrame(f, y, 16);
    } else if f.len == 17 {
      assert Received(f, x)[16] == f.buf[16] && Received(f, y)[16] == f.buf[16];
    }
  }

  /** What completes any truncated frame of this length to a good answer. */
  function Good(req: Request, len: nat): (b: Buffer)
    requires HEADER_LEN < len < 18
  {
    Filled(0)[12 := AnswerTo(req) % 256][13 := AnswerTo(req) / 256][14 := len - HEADER_LEN][16 := 1][17 := 1]
  }

  /** What completes none. */
  function Bad(): (b: Buffer) {
    Filled(0)[15 := 1]
  }

  lemma {:induction false} GoodVerdict(req: Request, f: Frame)
    requires Whole(f) && Truncated(req, f)
    ensures Verdict(req, Received(f, Good(req, f.len)), f.len).0 == Ok
  {
    var r := Received(f, Good(req, f.len));
    hide Field;
    FieldBytes(r, 12);
    FieldBytes(r, 14);
    FieldBytes(r, 16);
    FieldBytes(f.buf, 12);
    FieldBytes(f.buf, 14);
    assert r[12] == AnswerTo(req) % 256 && r[13] == AnswerTo(req) / 256;
    assert r[14] == f.len - HEADER_LEN && r[15] == 0 && r[17] == 1;
  }

  lemma {:induction false} BadVerdict(req: Request, f: Frame)
    requires Whole(f) && Truncated(req, f)
    ensures Verdict(req, Received(f, Bad()), f.len).0 != Ok
  {
    var r := Received(f, Bad());
    hide Field;
    FieldBytes(r, 12);
    FieldBytes(r, 14);
    FieldBytes(r, 16);
    FieldBytes(f.buf, 12);
    FieldBytes(f.buf, 14);
    assert f.len == 13 ==> r[13] == 0;
    assert 13 < f.len < 16 ==> r[15] == 1;
    assert f.len >= 16 ==> r[12..16] == f.buf[12..16] && r[16] == 0 && r[17] == 0;
  }

  /** Every truncated frame succeeds or fails by what was received before it. */
  lemma {:induction false} StaleVerdict(req: Request, f: Frame)
    requires Whole(f) && Truncated(req, f)
    ensures !OwnVerdict(req, f)
  {
    GoodVerdict(req, f);
    BadVerdict(req, f);
    hide Verdict, Received, Truncated, Good, Bad;
  }

  /** What a complete reply says to a request that set something. The command is RESULT and the length
      that of the message: success if the result is not zero, failure if it is. Anything else is an
      invalid message. */
  lemma {:induction false} ResultSays(req: Request, f: Frame)
    requires Whole(f) && f.len >= 18 && !req.GetRequest?
    ensures var good := Field(f.buf, 12) == 0x9191 && Field(f.buf, 14) == f.len - 12;
      && (good && f.buf[16] == 0 && f.buf[17] == 0 ==> Verdict(req, f.buf, f.len) == (ActFailed, []))
      && (good && !(f.buf[16] == 0 && f.buf[17] == 0) ==> Verdict(req, f.buf, f.len) == (Ok, []))
      && (!good ==> Verdict(req, f.buf, f.len) == (InvalidMsg, []))
  {
    FieldBytes(f.buf, 16);
  }

  /** What a complete reply says to a status query: if it is a status message of its length, success
      and its pairs, as many as asked for but at least one. Anything else is an invalid message. */
  lemma {:induction false} StatusSays(h: bytes, ps: seq<Pair>, requested: nat, behind: bytes, buf: Buffer)
    requires |h| == 12 && |ps| <= 15 && buf == h + DriverMessage(0x9112, ps) + behind
    ensures var n := if requested >= |ps| then |ps| else if requested == 0 then 1 else requested;
      Verdict(GetRequest(requested), buf, 16 + 4 * |ps|) == (Ok, ps[..n])
  {
    var m := DriverMessage(0x9112, ps);
    DriverMessageFields(0x9112, ps);
    DriverRoundTrip(0x9112, ps, requested, behind);
    hide DriverMessage, GetU16, ListAt, ParsedCount;
    assert buf[12..] == m + behind;
    assert buf[12..14] == m[0..2] && buf[14..16] == m[2..4];
  }

  lemma {:induction false} OtherIsInvalid(requested: nat, f: Frame)
    requires Whole(f) && f.len >= 16 && !(Field(f.buf, 12) == 0x9112 && Field(f.buf, 14) == f.len - 12)
    ensures Verdict(GetRequest(requested), f.buf, f.len) == (InvalidMsg, [])
  {
  }

  /** In every run, a woken request returns what the bytes of its own reply say, and nothing else,
      unless that reply is truncated. */
  lemma {:induction false} ReplyDecides(steps: seq<Step>) returns (b: nat, j: nat)
    requires Valid(steps + [Wake])
    ensures b < j < |steps| && steps[b].Begin? && steps[j].Recv? && Whole(steps[j].f)
    ensures IdOf(steps[j].f) == TransId(Count(steps[..b]))
    ensures Valid(steps) && HEADER_LEN < Run(steps).recvLen <= BUFFER_LEN
    ensures var req, f := steps[b].req, steps[j].f;
      !Truncated(req, f) ==> Verdict(req, Run(steps).recv, Run(steps).recvLen) == Verdict(req, f.buf, f.len)
  {
    b, j := WokenByOwnReply(steps);
    var f, r := steps[j].f, Run(steps);
    assert Received(f, r.recv) == r.recv[..f.len] + r.recv[f.len..] == r.recv;
    assert Received(f, f.buf) == f.buf[..f.len] + f.buf[f.len..] == f.buf;
    if !Truncated(steps[b].req, f) {
      SameVerdict(steps[b].req, f, r.recv, f.buf);
    }
  }

  // ---------------------------------------------------------------- runs on which it goes wrong

  /** All frames of the run are handed in by the monitor thread, and no request gets more than one:
      two never follow each other. */
  ghost predicate Real(steps: seq<Step>) {
    && (forall i :: 0 <= i < |steps| && steps[i].Recv? ==> Deliverable(steps[i].f))
    && (forall i :: 0 <= i < |steps| - 1 && steps[i].Recv? ==> steps[i + 1] == Wake)
  }

  lemma {:induction false} Extend(before: seq<Step>, s: Step) returns (steps: seq<Step>)
    requires Valid(before) && Enabled(Run(before), s) && Real(before)
    requires (s.Recv? ==> Deliverable(s.f)) && (before != [] && Last(before).Recv? ==> s == Wake)
    ensures steps == before + [s] && Valid(steps) && Real(steps) && Run(steps) == Apply(Run(before), s)
    ensures Count(steps) == Count(before) + if Ends(s) then 1 else 0
  {
    steps := before + [s];
    assert Front(steps) == before && Last(steps) == s;
  }

  /** `n` more requests that all time out; the receive buffer stays. */
  lemma {:induction false} Silence(before: seq<Step>, req: Request, n: nat) returns (steps: seq<Step>)
    requires Valid(before) && Real(before) && Run(before).request == None
    requires before != [] ==> !Last(before).Recv?
    ensures Valid(steps) && Real(steps) && Run(steps).request == None && (steps != [] ==> !Last(steps).Recv?)
    ensures Count(steps) == Count(before) + n && Run(steps).recv == Run(before).recv
  {
    steps := before;
    if n > 0 {
      var shorter := Silence(before, req, n - 1);
      hide Real, Valid, Run, Count;
      var begun := Extend(shorter, Begin(req));
      steps := Extend(begun, Timeout);
    }
  }

  lemma {:induction false} Nothing()
    ensures Valid([]) && Real([]) && Count([]) == 0 && Run([]) == Initial()
  {
  }

  /** A run on which a request is open with id 0: after 65535 requests. */
  lemma {:induction false} ZeroIdHappens(req: Request) returns (steps: seq<Step>)
    ensures Valid(steps) && Real(steps) && Run(steps).request == Some(req) && Run(steps).transId == 0
    ensures Count(steps) % 0x1_0000 == 0xFFFF && !Enabled(Run(steps), Wake)
  {
    Nothing();
    hide Real, Valid, Run, Count;
    var before := Silence([], req, 0xFFFF);
    steps := Extend(before, Begin(req));
    RunIds(steps);
    ZeroIdTimesOut(steps);
  }

  /** A full-length reply to the first request of all, with these bytes in its message. */
  function Earlier(f: Frame, x: Buffer): (e: Frame)
    ensures e.len == BUFFER_LEN && e.buf[..2] == U16(MAGIC) && e.buf[2..4] == U16(BUFFER_LEN)
    ensures e.buf[10..12] == U16(1) && e.buf[HEADER_LEN..] == x[HEADER_LEN..]
  {
    Frame(U16(MAGIC) + U16(BUFFER_LEN) + f.buf[4..10] + U16(1) + x[HEADER_LEN..], BUFFER_LEN)
  }

  lemma {:induction false} EarlierDelivered(f: Frame, x: Buffer)
    ensures Deliverable(Earlier(f, x)) && IdOf(Earlier(f, x)) == 1
  {
    var e := Earlier(f, x);
    hide U16, GetU16, Earlier;
    assert e.buf[0..2] == e.buf[..2];
    GetOfU16(MAGIC);
    GetOfU16(BUFFER_LEN);
    GetOfU16(1);
  }

  lemma {:induction false} LeftBehind(f: Frame, x: Buffer, recv: Buffer)
    requires Whole(f)
    ensures Received(f, Received(Earlier(f, x), recv)) == Received(f, x)
  {
    var e := Earlier(f, x);
    hide Earlier;
    assert Received(e, recv) == e.buf;
    assert e.buf[f.len..] == e.buf[HEADER_LEN..][f.len - HEADER_LEN..] == x[f.len..];
  }

  /** The first request of all is answered, with any message. */
  lemma {:induction false} FirstAnswered(req: Request, e: Frame) returns (steps: seq<Step>)
    requires Deliverable(e) && IdOf(e) == 1
    ensures Valid(steps) && Real(steps) && steps != [] && !Last(steps).Recv? && Count(steps) == 1
    ensures Run(steps).request == None && Run(steps).recv == Received(e, Initial().recv)
  {
    Nothing();
    hide IdOf, Received, Real, Valid, Run, Count;
    var begun := Extend([], Begin(req));
    var replied := Extend(begun, Recv(e));
    steps := Extend(replied, Wake);
  }

  /** So many requests after the first, the transaction id is this; it comes round to 1 after 65536. */
  function After(id: u16): (n: nat)
    requires id != 0
    ensures TransId(1 + n) == id
  {
    if id == 1 then 0xFFFF else id - 2
  }

  /** Any bytes can be left in the buffer behind a reply: the reply to the first request brought
      them, and the requests between timed out. */
  lemma {:induction false} StaleRun(req: Request, f: Frame, x: Buffer) returns (steps: seq<Step>)
    requires Deliverable(f) && IdOf(f) != 0
    ensures Valid(steps) && Real(steps) && steps != [] && Last(steps) == Recv(f) && Enabled(Run(steps), Wake)
    ensures Run(steps).request == Some(req) && Run(steps).recvLen == f.len && Run(steps).recv == Received(f, x)
  {
    EarlierDelivered(f, x);
    LeftBehind(f, x, Initial().recv);
    hide IdOf, Received, Earlier, Real, Valid, Run, Count, TransId, After, Initial;
    var woken := FirstAnswered(req, Earlier(f, x));
    var before := Silence(woken, req, After(IdOf(f)));
    RunIds(before);
    var open := Extend(before, Begin(req));
    steps := Extend(open, Recv(f));
  }

  /** For every truncated reply two runs end in that same frame, and in one of them the request
      succeeds while in the other it fails. */
  lemma {:induction false} SameReplyTwoVerdicts(req: Request, f: Frame) returns (good: seq<Step>, bad: seq<Step>)
    requires Deliverable(f) && IdOf(f) != 0 && Truncated(req, f)
    ensures Valid(good) && Real(good) && good != [] && Last(good) == Recv(f) && Enabled(Run(good), Wake)
    ensures Valid(bad) && Real(bad) && bad != [] && Last(bad) == Recv(f) && Enabled(Run(bad), Wake)
    ensures Run(good).request == Some(req) && Run(good).recvLen == f.len
    ensures Run(bad).request == Some(req) && Run(bad).recvLen == f.len
    ensures Verdict(req, Run(good).recv, f.len).0 == Ok && Verdict(req, Run(bad).recv, f.len).0 != Ok
  {
    GoodVerdict(req, f);
    BadVerdict(req, f);
    hide Verdict, Truncated, Good, Bad, Run, Valid, Real;
    good := StaleRun(req, f, Good(req, f.len));
    bad := StaleRun(req, f, Bad());
  }

  /** Such a frame: 16 bytes of a RESULT for the second transaction, without its result. */
  lemma {:induction false} TruncatedExists(pairs: seq<Pair>)
    ensures var f := Frame(Filled(0)[0 := 0xAA][1 := 0x55][2 := 16][10 := 2][12 := 0x91][13 := 0x91][14 := 4], 16);
      Deliverable(f) && IdOf(f) == 2 && Truncated(SetRequest(pairs), f)
  {
    var b := Filled(0)[0 := 0xAA][1 := 0x55][2 := 16][10 := 2][12 := 0x91][13 := 0x91][14 := 4];
    FieldBytes(b, 0);
    FieldBytes(b, 2);
    FieldBytes(b, 10);
    FieldBytes(b, 12);
    FieldBytes(b, 14);
  }
}
