/** Asynchronous requests and their replies: the action queue of `core_daemon/device.c` and the
    client pool of `core_daemon/network.c`. */
module Replies {
  import opened Device
  import opened Options

  const MAX_CLIENTS := 5

  datatype Response =
    | Result(code: Error)
    | Status(devid: u32, pairs: seq<(u16, u16)>)
    | Notice(evt: Event)

  /** A client context: `queue` waits to be written, `written` has gone to this connection. */
  datatype Client = Client(inUse: bool, queue: seq<Response>, written: seq<Response>)

  datatype Act = Act(cmd: Command, reply: Option<nat>)

  /** `current` is the action the asynchronous thread has taken from `pending` and not finished. */
  datatype Net = Net(clients: seq<Client>, current: Option<Act>, pending: seq<Act>)

  /** What a driver call returned. */
  datatype DriverResult = DriverResult(ret: Error, pairs: seq<(u16, u16)>)

  // ---------------------------------------------------------------- on values

  predicate Receives(c: Client, i: nat, resp: Response, reply: Option<nat>) {
    c.inUse && (resp.Notice? || reply == Some(i))
  }

  function Pushed(c: Client, i: nat, resp: Response, reply: Option<nat>): Client {
    if Receives(c, i, resp, reply) then c.(queue := c.queue + [resp]) else c
  }

  /** `notify_resp`: events go to every client in use, anything else to the one that asked. */
  function Notified(clients: seq<Client>, resp: Response, reply: Option<nat>): (cs: seq<Client>)
    ensures |cs| == |clients|
  {
    seq(|clients|, i requires 0 <= i < |clients| => Pushed(clients[i], i, resp, reply))
  }

  /** The response of `_process_dev_act`; an action nobody waits for has none, except that a status
      query always makes one. */
  function ResponseTo(act: Act, out: DriverResult): Option<Response> {
    match act.cmd
    case GetStatus(devid) => if out.ret == Ok then Some(Status(devid, out.pairs)) else Some(Result(out.ret))
    case _ => if act.reply == None then None else Some(Result(out.ret))
  }

  /** The asynchronous thread finishes its action: the response, if any, goes out. */
  function Finished(n: Net, out: DriverResult): Net
    requires n.current.Some?
  {
    var act := n.current.value;
    match ResponseTo(act, out)
    case None => n.(current := None)
    case Some(resp) => n.(clients := Notified(n.clients, resp, act.reply), current := None)
  }

  function FirstFree(clients: seq<Client>): (i: nat)
    ensures i <= |clients| && (forall j :: 0 <= j < i ==> clients[j].inUse) && (i < |clients| ==> !clients[i].inUse)
  {
    if clients == [] || !clients[0].inUse then 0 else 1 + FirstFree(clients[1..])
  }

  /** `get_client_context`; the queue is not cleaned. */
  function Connected(clients: seq<Client>): seq<Client> {
    var i := FirstFree(clients);
    if i < |clients| then clients[i := clients[i].(inUse := true, written := [])] else clients
  }

  /** `_process_notify`: the whole queue is written. A write that fails, after `fails.value` that
      did not, stops it, and the response in hand is lost. */
  function Flushed(c: Client, fails: Option<nat>): Client {
    if fails.Some? && fails.value < |c.queue| then
      c.(queue := c.queue[fails.value + 1..], written := c.written + c.queue[..fails.value])
    else c.(queue := [], written := c.written + c.queue)
  }

  datatype Step =
    | Connect
    | Disconnect(c: nat)
    | Request(c: nat, cmd: Command)
    | Internal(cmd: Command)
    | Take
    | Finish(out: DriverResult)
    | Raise(evt: Event)
    | Flush(c: nat, fails: Option<nat>)

  predicate Enabled(n: Net, s: Step) {
    match s
    case Disconnect(c) => c < |n.clients|
    case Request(c, _) => c < |n.clients|
    case Flush(c, _) => c < |n.clients|
    case Take => n.current == None && n.pending != []
    case Finish(_) => n.current.Some?
    case _ => true
  }

  function Apply(n: Net, s: Step): (n': Net)
    requires Enabled(n, s)
    ensures |n'.clients| == |n.clients|
  {
    match s
    case Connect => n.(clients := Connected(n.clients))
    case Disconnect(c) => n.(clients := n.clients[c := n.clients[c].(inUse := false)])
    case Request(c, cmd) => n.(pending := n.pending + [Act(cmd, Some(c))])
    case Internal(cmd) => n.(pending := n.pending + [Act(cmd, None)])
    case Take => n.(current := Some(n.pending[0]), pending := n.pending[1..])
    case Finish(out) => Finished(n, out)
    case Raise(evt) => n.(clients := Notified(n.clients, Notice(evt), None))
    case Flush(c, fails) => n.(clients := n.clients[c := Flushed(n.clients[c], fails)])
  }

  ghost predicate ValidRun(n: Net, steps: seq<Step>)
    decreases |steps|
  {
    steps == [] || (Enabled(n, steps[0]) && ValidRun(Apply(n, steps[0]), steps[1..]))
  }

  ghost function Run(n: Net, steps: seq<Step>): Net
    requires ValidRun(n, steps)
    decreases |steps|
  {
    if steps == [] then n else Run(Apply(n, steps[0]), steps[1..])
  }

  // ---------------------------------------------------------------- what a client asked and got

  /** Requests of a client along a run, in order. */
  ghost function Asked(steps: seq<Step>, c: nat): seq<Command> {
    if steps == [] then []
    else (if steps[0].Request? && steps[0].c == c then [steps[0].cmd] else []) + Asked(steps[1..], c)
  }

  /** Events raised along a run, in order. */
  function StepEvents(s: Step): seq<Event> {
    if s.Raise? then [s.evt] else []
  }

  ghost function Raised(steps: seq<Step>): seq<Event> {
    if steps == [] then [] else StepEvents(steps[0]) + Raised(steps[1..])
  }

  /** A request that has been worked off: what was asked and what the driver returned. */
  datatype Answer = Answer(cmd: Command, out: DriverResult)

  /** The request of the client that a step finishes, if any. */
  function StepAnswer(n: Net, s: Step, c: nat): seq<Answer>
    requires Enabled(n, s)
  {
    if s.Finish? && n.current.value.reply == Some(c) then [Answer(n.current.value.cmd, s.out)] else []
  }

  ghost function Answers(n: Net, steps: seq<Step>, c: nat): seq<Answer>
    requires ValidRun(n, steps)
    decreases |steps|
  {
    if steps == [] then [] else StepAnswer(n, steps[0], c) + Answers(Apply(n, steps[0]), steps[1..], c)
  }

  function Commands(answers: seq<Answer>): (cs: seq<Command>)
    ensures |cs| == |answers|
  {
    seq(|answers|, i requires 0 <= i < |answers| => answers[i].cmd)
  }

  /** The response tells the client what the driver returned: the values of a status query that
      succeeded, or the error code. */
  predicate Tells(r: Response, a: Answer) {
    && (r.Status? <==> a.cmd.GetStatus? && a.out.ret == Ok)
    && (r.Status? ==> r.devid == a.cmd.devid && r.pairs == a.out.pairs)
    && (r.Result? ==> r.code == a.out.ret)
    && !r.Notice?
  }

  ghost predicate AllTell(rs: seq<Response>, answers: seq<Answer>) {
    |rs| == |answers| && forall i :: 0 <= i < |rs| ==> Tells(rs[i], answers[i])
  }

  function AskedBy(a: Act, c: nat): seq<Command> {
    if a.reply == Some(c) then [a.cmd] else []
  }

  /** Requests of the client still in the queue. */
  function Queued(pending: seq<Act>, c: nat): seq<Command> {
    if pending == [] then [] else AskedBy(pending[0], c) + Queued(pending[1..], c)
  }

  /** Requests of the client not answered yet: in work, then in the queue. */
  function Waiting(n: Net, c: nat): seq<Command> {
    (if n.current.Some? then AskedBy(n.current.value, c) else []) + Queued(n.pending, c)
  }

  function NonEvents(rs: seq<Response>): seq<Response> {
    if rs == [] then []
    else NonEvents(rs[..|rs| - 1]) + (if rs[|rs| - 1].Notice? then [] else [rs[|rs| - 1]])
  }

  function EventsIn(rs: seq<Response>): seq<Event> {
    if rs == [] then []
    else EventsIn(rs[..|rs| - 1]) + (if rs[|rs| - 1].Notice? then [rs[|rs| - 1].evt] else [])
  }

  /** Everything sent to the client in this connection: written, then waiting. */
  function Sent(n: Net, c: nat): seq<Response>
    requires c < |n.clients|
  {
    n.clients[c].written + n.clients[c].queue
  }

  // ---------------------------------------------------------------- small steps

  lemma {:induction false} QueuedSnoc(pending: seq<Act>, a: Act, c: nat)
    ensures Queued(pending + [a], c) == Queued(pending, c) + AskedBy(a, c)
  {
    if pending != [] {
      assert (pending + [a])[1..] == pending[1..] + [a];
      QueuedSnoc(pending[1..], a, c);
    }
  }

  lemma {:induction false} NonEventsSnoc(rs: seq<Response>, r: Response)
    ensures NonEvents(rs + [r]) == NonEvents(rs) + (if r.Notice? then [] else [r])
    ensures EventsIn(rs + [r]) == EventsIn(rs) + (if r.Notice? then [r.evt] else [])
  {
    assert (rs + [r])[..|rs|] == rs;
  }

  /** The step ends this client's connection, or a write to it fails. */
  predicate Interrupts(s: Step, c: nat) {
    match s
    case Disconnect(d) => d == c
    case Flush(d, fails) => d == c && fails.Some?
    case _ => false
  }

  /** One step: a client in use gets the answers and events of the step, and only those. */
  lemma {:induction false} StepSends(n: Net, s: Step, c: nat) returns (rs: seq<Response>)
    requires Enabled(n, s) && c < |n.clients| && n.clients[c].inUse && !Interrupts(s, c)
    ensures AllTell(rs, StepAnswer(n, s, c))
    ensures var n' := Apply(n, s);
      && n'.clients[c].inUse
      && NonEvents(Sent(n', c)) == NonEvents(Sent(n, c)) + rs
      && EventsIn(Sent(n', c)) == EventsIn(Sent(n, c)) + StepEvents(s)
  {
    hide NonEvents, EventsIn;
    rs := [];
    match s
    case Finish(out) => rs := FinishSends(n, out, c);
    case Raise(evt) =>
      NonEventsSnoc(Sent(n, c), Notice(evt));
      assert Sent(Apply(n, s), c) == Sent(n, c) + [Notice(evt)];
    case Flush(d, fails) => assert Sent(Apply(n, s), c) == Sent(n, c);
    case _ =>
  }

  lemma {:induction false} FinishSends(n: Net, out: DriverResult, c: nat) returns (rs: seq<Response>)
    requires n.current.Some? && c < |n.clients| && n.clients[c].inUse
    ensures AllTell(rs, StepAnswer(n, Finish(out), c))
    ensures var n' := Finished(n, out);
      && n'.clients[c].inUse
      && NonEvents(Sent(n', c)) == NonEvents(Sent(n, c)) + rs
      && EventsIn(Sent(n', c)) == EventsIn(Sent(n, c))
  {
    hide NonEvents, EventsIn;
    var act, n' := n.current.value, Finished(n, out);
    if act.reply == Some(c) {
      var resp := ResponseTo(act, out).value;
      rs := [resp];
      assert Sent(n', c) == Sent(n, c) + [resp];
      assert Tells(resp, Answer(act.cmd, out));
      assert StepAnswer(n, Finish(out), c) == [Answer(act.cmd, out)] && n'.clients[c].inUse;
      hide *;
      NonEventsSnoc(Sent(n, c), resp);
    } else {
      rs := [];
      assert Sent(n', c) == Sent(n, c) && n'.clients[c].inUse;
    }
  }

  /** One step: every request is either still waiting or has just been answered, first come first
      served. */
  lemma {:induction false} StepFifo(n: Net, s: Step, c: nat)
    requires Enabled(n, s)
    ensures Waiting(n, c) + (if s.Request? && s.c == c then [s.cmd] else [])
         == Commands(StepAnswer(n, s, c)) + Waiting(Apply(n, s), c)
  {
    if s.Take? || s.Finish? {
      WorkFifo(n, s, c);
    } else {
      hide Queued;
      match s
      case Request(d, cmd) => QueuedSnoc(n.pending, Act(cmd, Some(d)), c);
      case Internal(cmd) => QueuedSnoc(n.pending, Act(cmd, None), c);
      case _ =>
    }
  }

  lemma {:induction false} WorkFifo(n: Net, s: Step, c: nat)
    requires Enabled(n, s) && (s.Take? || s.Finish?)
    ensures Waiting(n, c) == Commands(StepAnswer(n, s, c)) + Waiting(Apply(n, s), c)
  {
    if s.Take? {
      assert Waiting(n, c) == [] + Queued(n.pending, c);
    } else {
      hide Queued;
    }
  }

  // ---------------------------------------------------------------- whole runs

  /** Along every run within one connection: the non-event responses sent to the client are one for
      each of its own requests that was worked off, in the order they were made, telling what the
      driver returned; the others are still waiting; and the events sent are all the events raised. */
  lemma {:induction false} RepliesInOrder(n: Net, steps: seq<Step>, c: nat) returns (rs: seq<Response>)
    requires ValidRun(n, steps) && c < |n.clients| && n.clients[c].inUse
    requires forall i :: 0 <= i < |steps| ==> !Interrupts(steps[i], c)
    ensures AllTell(rs, Answers(n, steps, c))
    ensures var e, a := Run(n, steps), Answers(n, steps, c);
      && |e.clients| == |n.clients| && e.clients[c].inUse
      && NonEvents(Sent(e, c)) == NonEvents(Sent(n, c)) + rs
      && EventsIn(Sent(e, c)) == EventsIn(Sent(n, c)) + Raised(steps)
      && Waiting(n, c) + Asked(steps, c) == Commands(a) + Waiting(e, c)
    decreases |steps|
  {
    hide Apply, Sent, NonEvents, EventsIn, Waiting, StepAnswer, StepEvents, Enabled, Tells;
    if steps == [] {
      rs := [];
    } else {
      var s, n' := steps[0], Apply(n, steps[0]);
      var first := StepSends(n, s, c);
      StepFifo(n, s, c);
      var rest := RepliesInOrder(n', steps[1..], c);
      rs := first + rest;
      var a, b := StepAnswer(n, s, c), Answers(n', steps[1..], c);
      AllTellConcat(first, a, rest, b);
      assert Commands(a + b) == Commands(a) + Commands(b);
      Chain(Waiting(n, c), if s.Request? && s.c == c then [s.cmd] else [], Asked(steps[1..], c),
            Commands(a), Waiting(n', c), Commands(b), Waiting(Run(n, steps), c));
    }
  }

  lemma {:induction false} AllTellConcat(rs: seq<Response>, a: seq<Answer>, qs: seq<Response>, b: seq<Answer>)
    requires AllTell(rs, a) && AllTell(qs, b)
    ensures AllTell(rs + qs, a + b)
  {
    hide Tells;
  }

  lemma {:induction false} Chain(w: seq<Command>, q: seq<Command>, qs: seq<Command>,
      a: seq<Command>, w1: seq<Command>, b: seq<Command>, w2: seq<Command>)
    requires w + q == a + w1 && w1 + qs == b + w2
    ensures w + (q + qs) == (a + b) + w2
  {
    calc {
      w + (q + qs);
      (w + q) + qs;
      a + (w1 + qs);
      a + (b + w2);
      (a + b) + w2;
    }
  }

  /** For a fresh connection of which nothing is pending, once its requests have been worked off:
      exactly one response for each request, in request order, and each event once. */
  lemma {:induction false} ExactlyOneReply(n: Net, steps: seq<Step>, c: nat)
    requires ValidRun(n, steps) && c < |n.clients| && n.clients[c].inUse
    requires Sent(n, c) == [] && Waiting(n, c) == []
    requires forall i :: 0 <= i < |steps| ==> !Interrupts(steps[i], c)
    requires Waiting(Run(n, steps), c) == []
    ensures var e, a := Run(n, steps), Answers(n, steps, c);
      && c < |e.clients| && Asked(steps, c) == Commands(a)
      && AllTell(NonEvents(Sent(e, c)), a) && EventsIn(Sent(e, c)) == Raised(steps)
  {
    var rs := RepliesInOrder(n, steps, c);
    var a := Answers(n, steps, c);
    assert NonEvents([]) == [] && EventsIn([]) == [];
    assert [] + Asked(steps, c) == Asked(steps, c) && Commands(a) + [] == Commands(a) && [] + rs == rs;
  }

  /** A context that is not in use is sent nothing, and changes only when it is taken or flushed. */
  lemma {:induction false} UnusedGetsNothing(n: Net, s: Step, c: nat)
    requires Enabled(n, s) && c < |n.clients| && !n.clients[c].inUse && !s.Connect? && !(s.Flush? && s.c == c)
    ensures Apply(n, s).clients[c] == n.clients[c]
  {
  }

  /** What one client did not read goes to the next: a connection that takes over the context finds the
      left-over queue and is sent it. */
  lemma {:induction false} LeftoverReachesNext(n: Net, c: nat)
    requires c < |n.clients| && n.clients[c].inUse && forall i :: 0 <= i < c ==> n.clients[i].inUse
    ensures var n1 := Apply(n, Disconnect(c));
      var n2 := Apply(n1, Connect);
      var n3 := Apply(n2, Flush(c, None));
      && n2.clients[c] == Client(true, n.clients[c].queue, []) && n3.clients[c].written == n.clients[c].queue
      && forall i :: 0 <= i < |n.clients| && i != c ==> n3.clients[i] == n.clients[i]
  {
    var n1 := Apply(n, Disconnect(c));
    var i := FirstFree(n1.clients);
    assert !n1.clients[c].inUse;
    assert forall j :: 0 <= j < c ==> n1.clients[j] == n.clients[j];
    assert !(c < i) && !(i < c);
  }

  /** A write that fails after `k` good ones loses the response in hand and no other, and keeps the
      order. */
  lemma {:induction false} FailedWriteLosesOne(c: Client, k: nat)
    requires k < |c.queue|
    ensures var d := Flushed(c, Some(k));
      d.written + [c.queue[k]] + d.queue == c.written + c.queue && |d.written| == |c.written| + k
  {
  }

  // ---------------------------------------------------------------- in place

  /** The client pool and the asynchronous queue. */
  class Server {
    const context: array<Client>
    var current: Option<Act>
    var pending: seq<Act>

    ghost function State(): Net
      reads this, context
    {
      Net(context[..], current, pending)
    }

    /** `init_client_pool`. */
    constructor ()
      ensures State() == Net(seq(MAX_CLIENTS, _ => Client(false, [], [])), None, [])
      ensures fresh(context)
    {
      context := new Client[MAX_CLIENTS](_ => Client(false, [], []));
      current := None;
      pending := [];
    }

    /** `notify_resp`. */
    method NotifyResp(resp: Response, reply: Option<nat>)
      modifies context
      ensures context[..] == Notified(old(context[..]), resp, reply)
    {
      var cnt := 0;
      while cnt < context.Length
        invariant cnt <= context.Length
        invariant forall i :: 0 <= i < cnt ==> context[i] == Pushed(old(context[i]), i, resp, reply)
        invariant forall i :: cnt <= i < context.Length ==> context[i] == old(context[i])
      {
        if context[cnt].inUse && (resp.Notice? || reply == Some(cnt)) {
          context[cnt] := context[cnt].(queue := context[cnt].queue + [resp]);
        }
        cnt := cnt + 1;
      }
    }

    /** `get_client_context`; `cnt == context.Length` says that there is none. */
    method GetClientContext() returns (cnt: nat)
      modifies context
      ensures State() == Apply(old(State()), Connect) && cnt == FirstFree(old(context[..]))
    {
      cnt := 0;
      while cnt < context.Length
        invariant cnt <= context.Length && forall i :: 0 <= i < cnt ==> context[i].inUse
      {
        if !context[cnt].inUse {
          break;
        }
        cnt := cnt + 1;
      }
      if cnt < context.Length {
        context[cnt] := context[cnt].(inUse := true, written := []);
      }
    }

    /** `put_client_context`. */
    method PutClientContext(c: nat)
      requires c < context.Length
      modifies context
      ensures State() == Apply(old(State()), Disconnect(c))
    {
      context[c] := context[c].(inUse := false);
    }

    /** `_process_notify`. */
    method ProcessNotify(c: nat, fails: Option<nat>)
      requires c < context.Length
      modifies context
      ensures State() == Apply(old(State()), Flush(c, fails))
    {
      ghost var was := context[c];
      var done := 0;
      while context[c].queue != []
        invariant done <= |was.queue| && (fails.Some? ==> done <= fails.value)
        invariant context[c] == was.(queue := was.queue[done..], written := was.written + was.queue[..done])
        invariant context[..] == old(context[..])[c := context[c]]
        decreases |context[c].queue|
      {
        var resp := context[c].queue[0];
        context[c] := context[c].(queue := context[c].queue[1..]);
        if fails == Some(done) {
          return;
        }
        context[c] := context[c].(written := context[c].written + [resp]);
        done := done + 1;
      }
      assert was.queue[..done] == was.queue;
    }

    /** `probe_dev_async`, `set_dev_status_async`, `get_dev_status_async`, `set_dev_action_async`. */
    method PushAct(cmd: Command, reply: Option<nat>)
      requires reply.Some? ==> reply.value < context.Length
      modifies this`pending
      ensures State() == Apply(old(State()), if reply.Some? then Request(reply.value, cmd) else Internal(cmd))
    {
      pending := pending + [Act(cmd, reply)];
    }

    /** The pop of `async_process_thread`. */
    method TakeAct()
      requires Enabled(State(), Take)
      modifies this
      ensures State() == Apply(old(State()), Take)
    {
      current := Some(pending[0]);
      pending := pending[1..];
    }

    /** `_process_dev_act`, once the driver has returned. */
    method ProcessDevAct(out: DriverResult)
      requires Enabled(State(), Finish(out))
      modifies this, context
      ensures State() == Apply(old(State()), Finish(out))
    {
      var act := current.value;
      current := None;
      match act.cmd {
        case GetStatus(devid) =>
          NotifyResp(if out.ret != Ok then Result(out.ret) else Status(devid, out.pairs), act.reply);
        case _ =>
          if act.reply == None {
            return;
          }
          NotifyResp(Result(out.ret), act.reply);
      }
    }
  }
}
