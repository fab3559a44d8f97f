/**
 How internal/server/handler.go matches responses to requests: HTTP handlers and the read loop as
 goroutines that interleave. Every handler has its own one-slot response channel, and the pending
 table maps an id string to the handler registered last under it. One step is one channel operation,
 one write to the subprocess, or one critical section of the mutexes that guard the table and the
 read-loop flag (each is a single access). The mutex around stdin is taken and released in steps of
 its own, because it spans several writes.
 */
module Correlation {
  import opened Common
  import opened SseFormat

  /** A response read from the subprocess. serial numbers the responses in the order they were read. */
  datatype Reply = Reply(id: string, serial: nat, data: string)

  datatype Outcome = Unavailable | WriteFailed | Answered(reply: Reply) | TimedOut | Cancelled | Accepted

  datatype HandlerPc =
    | EnsureLoop | Register | LockStdin | CheckStdin | WriteBody | WriteNewline
    | UnlockStdin(failure: Option<Outcome>)
    | Await | Deregister(result: Outcome) | Finished(result: Outcome)

  /** request distinguishes requests from notifications; hits records the responses whose lookup found this handler. */
  datatype Handler = Handler(request: bool, id: string, body: string, pc: HandlerPc, inbox: seq<Reply>, hits: seq<Reply>)

  datatype LoopPc = Boot | Read | Lookup(reply: Reply) | Send(reply: Reply, handler: nat) | MarkStopped

  /**
   forwarded, broken and owner record history: the messages written in full, whether a write failed,
   and which handler a response was routed to.
   */
  datatype Shared = Shared(
    started: bool,
    pending: map<string, nat>,
    stdinLock: Option<nat>,
    stdin: string,
    forwarded: seq<string>,
    broken: bool,
    replies: nat,
    owner: map<nat, nat>)

  datatype State = State(g: Shared, handlers: map<nat, Handler>, loops: map<nat, LoopPc>)

  const INIT := State(Shared(false, map[], None, "", [], false, 0, map[]), map[], map[])

  /** What the environment decides for a handler: is stdin there, does a write work (else how much is written), which select arm is taken. */
  datatype Choice = Choice(works: bool, written: nat, arm: Arm, newLoop: nat)

  datatype Arm = OnResponse | OnTimeout | OnCancel

  /** What the environment gives the read loop. */
  datatype Input = NoStdout | Failure | Other | Response(id: string, data: string)

  datatype Step =
    | Arrive(n: nat, request: bool, id: string, body: string)
    | Handle(n: nat, choice: Choice)
    | Loop(n: nat, input: Input)

  // ----- Handlers -----

  datatype Effect = Blocked | Next(g: Shared, h: Handler)

  function Goto(g: Shared, h: Handler, pc: HandlerPc): Effect { Next(g, h.(pc := pc)) }

  /** What follows once stdin has been released. */
  function AfterForward(h: Handler, failure: Option<Outcome>): HandlerPc {
    if failure.None? then (if h.request then Await else Finished(Accepted))
    else if h.request then Deregister(failure.value)
    else Finished(failure.value)
  }

  function HandlerStep(g: Shared, n: nat, h: Handler, c: Choice): Effect {
    match h.pc
    case EnsureLoop => Goto(g.(started := true), h, if h.request then Register else LockStdin)
    case Register => Goto(g.(pending := g.pending[h.id := n]), h, LockStdin)
    case LockStdin => if g.stdinLock.None? then Goto(g.(stdinLock := Some(n)), h, CheckStdin) else Blocked
    case CheckStdin => Goto(g, h, if c.works then WriteBody else UnlockStdin(Some(Unavailable)))
    case WriteBody =>
      if c.works then Goto(g.(stdin := g.stdin + h.body), h, WriteNewline)
      else Goto(Partial(g, h.body, c.written), h, UnlockStdin(Some(WriteFailed)))
    case WriteNewline =>
      if c.works then Goto(g.(stdin := g.stdin + "\n", forwarded := g.forwarded + [h.body]), h, UnlockStdin(None))
      else Goto(Partial(g, "\n", c.written), h, UnlockStdin(Some(WriteFailed)))
    case UnlockStdin(failure) => Goto(g.(stdinLock := None), h, AfterForward(h, failure))
    case Await =>
      (match c.arm
       case OnResponse => if h.inbox == [] then Blocked else Next(g, h.(pc := Deregister(Answered(h.inbox[0])), inbox := h.inbox[1..]))
       case OnTimeout => Goto(g, h, Deregister(TimedOut))
       case OnCancel => Goto(g, h, Deregister(Cancelled)))
    case Deregister(result) => Goto(g.(pending := g.pending - {h.id}), h, Finished(result))
    case Finished(_) => Blocked
  }

  /** A failed write leaves some prefix behind. */
  function Partial(g: Shared, text: string, written: nat): Shared {
    g.(stdin := g.stdin + text[..if written <= |text| then written else |text|], broken := true)
  }

  // ----- The read loop -----

  datatype LoopEffect = Stuck | Gone(g: Shared) | On(g: Shared, pc: LoopPc) | Deliver(g: Shared, pc: LoopPc, n: nat, h: Handler)

  /** A loop that finds no stdout leaves without clearing the flag; one that fails to read clears it. */
  function LoopStep(g: Shared, handlers: map<nat, Handler>, pc: LoopPc, input: Input): LoopEffect {
    match pc
    case Boot => if input.NoStdout? then Gone(g) else On(g, Read)
    case Read =>
      (match input
       case Failure => On(g, MarkStopped)
       case Response(id, data) => On(g.(replies := g.replies + 1), Lookup(Reply(id, g.replies, data)))
       case _ => On(g, Read))
    case Lookup(reply) =>
      if reply.id !in g.pending then On(g, Read)
      else
        var n := g.pending[reply.id];
        if n !in handlers then Stuck
        else Deliver(g.(owner := g.owner[reply.serial := n]), Send(reply, n), n, handlers[n].(hits := handlers[n].hits + [reply]))
    case Send(reply, n) =>
      if n !in handlers then Stuck
      else Deliver(g, Read, n, if handlers[n].inbox == [] then handlers[n].(inbox := [reply]) else handlers[n])
    case MarkStopped => Gone(g.(started := false))
  }

  function Do(s: State, step: Step): Option<State> {
    match step
    case Arrive(n, request, id, body) =>
      if n in s.handlers then None
      else Some(State(s.g, s.handlers[n := Handler(request, id, body, EnsureLoop, [], [])], s.loops))
    case Handle(n, c) =>
      if n !in s.handlers then None
      else
        var h := s.handlers[n];
        var spawns := h.pc.EnsureLoop? && !s.g.started;
        if spawns && c.newLoop in s.loops then None
        else
          (match HandlerStep(s.g, n, h, c)
           case Blocked => None
           case Next(g, h') => Some(State(g, s.handlers[n := h'], if spawns then s.loops[c.newLoop := Boot] else s.loops)))
    case Loop(n, input) =>
      if n !in s.loops then None
      else
        match LoopStep(s.g, s.handlers, s.loops[n], input)
        case Stuck => None
        case Gone(g) => Some(State(g, s.handlers, s.loops - {n}))
        case On(g, pc) => Some(State(g, s.handlers, s.loops[n := pc]))
        case Deliver(g, pc, k, h) => Some(State(g, s.handlers[k := h], s.loops[n := pc]))
  }

  function Exec(s: State, steps: seq<Step>): Option<State>
    decreases steps
  {
    if steps == [] then Some(s)
    else match Do(s, steps[0])
      case None => None
      case Some(s') => Exec(s', steps[1..])
  }

  // ----- Invariant: routing -----

  /** The result a handler is going to report, once it is known. */
  function Result(pc: HandlerPc): Option<Outcome> {
    match pc
    case UnlockStdin(failure) => failure
    case Deregister(result) => Some(result)
    case Finished(result) => Some(result)
    case _ => None
  }

  predicate HasAnswer(pc: HandlerPc) { Result(pc).Some? && Result(pc).value.Answered? }

  /** A loop has looked this handler up and has not sent yet. */
  predicate Sending(loops: map<nat, LoopPc>, n: nat) {
    exists l :: l in loops && loops[l].Send? && loops[l].handler == n
  }

  /** The first response that found the handler is in its channel or is its answer; later ones are not. */
  predicate FirstKept(h: Handler, settled: seq<Reply>) {
    if settled == [] then h.inbox == [] && !HasAnswer(h.pc)
    else Result(h.pc) == Some(Answered(settled[0])) || (h.inbox == [settled[0]] && !HasAnswer(h.pc))
  }

  predicate HandlerOk(n: nat, h: Handler, sending: bool, owner: map<nat, nat>) {
    && (forall r :: r in h.hits ==> r.id == h.id && r.serial in owner && owner[r.serial] == n)
    && |h.inbox| <= 1
    && (h.pc.Register? || h.pc.Await? || h.pc.Deregister? ==> h.request)
    && (sending ==> h.hits != [])
    && FirstKept(h, if sending then h.hits[..|h.hits| - 1] else h.hits)
  }

  predicate HandlersOk(g: Shared, handlers: map<nat, Handler>, loops: map<nat, LoopPc>) {
    forall n :: n in handlers ==> HandlerOk(n, handlers[n], Sending(loops, n), g.owner)
  }

  predicate LoopOk(g: Shared, handlers: map<nat, Handler>, pc: LoopPc) {
    match pc
    case Lookup(reply) => reply.serial < g.replies && reply.serial !in g.owner
    case Send(reply, n) => n in handlers && handlers[n].hits != [] && handlers[n].hits[|handlers[n].hits| - 1] == reply
    case _ => true
  }

  /** At most one loop is alive, and only while the flag is set. */
  predicate LoopsOk(g: Shared, handlers: map<nat, Handler>, loops: map<nat, LoopPc>) {
    && (forall a, b :: a in loops && b in loops ==> a == b)
    && (forall a :: a in loops ==> g.started && LoopOk(g, handlers, loops[a]))
    && (forall k :: k in g.owner ==> k < g.replies)
  }

  predicate PendingOk(g: Shared, handlers: map<nat, Handler>) {
    forall id :: id in g.pending ==>
      var n := g.pending[id]; n in handlers && handlers[n].request && handlers[n].id == id
  }

  predicate RoutingOk(s: State) {
    && HandlersOk(s.g, s.handlers, s.loops)
    && LoopsOk(s.g, s.handlers, s.loops)
    && PendingOk(s.g, s.handlers)
  }

  // A statement of a handler keeps its own record in order.

  predicate SameRecords(g: Shared, g': Shared) { g'.owner == g.owner && g'.replies == g.replies }

  lemma HandlerStepFrame(g: Shared, n: nat, h: Handler, c: Choice)
    ensures var e := HandlerStep(g, n, h, c);
            e.Next? ==>
              && e.h == h.(pc := e.h.pc, inbox := e.h.inbox)
              && SameRecords(g, e.g) && e.g.started == (g.started || h.pc.EnsureLoop?)
  {
    match h.pc
    case Await =>
    case WriteBody =>
    case WriteNewline =>
    case _ =>
  }

  lemma OffAwait(g: Shared, n: nat, h: Handler, c: Choice)
    requires !h.pc.Await?
    ensures var e := HandlerStep(g, n, h, c);
            e.Next? ==>
              && e.h.inbox == h.inbox
              && (if HasAnswer(h.pc) then Result(e.h.pc) == Result(h.pc) else !HasAnswer(e.h.pc))
              && (e.h.pc.Register? || e.h.pc.Await? || e.h.pc.Deregister? ==> h.request)
  {
  }

  lemma AtAwait(g: Shared, n: nat, h: Handler, sending: bool, c: Choice)
    requires h.pc.Await? && HandlerOk(n, h, sending, g.owner)
    ensures var e := HandlerStep(g, n, h, c); e.Next? ==> HandlerOk(n, e.h, sending, g.owner)
  {
  }

  lemma HandlerStepRoutes(g: Shared, n: nat, h: Handler, sending: bool, c: Choice)
    requires HandlerOk(n, h, sending, g.owner)
    ensures var e := HandlerStep(g, n, h, c); e.Next? ==> HandlerOk(n, e.h, sending, g.owner)
  {
    if h.pc.Await? {
      AtAwait(g, n, h, sending, c);
    } else {
      OffAwait(g, n, h, c);
      HandlerStepFrame(g, n, h, c);
      var e := HandlerStep(g, n, h, c);
      if e.Next? {
        StillOk(n, h, e.h, sending, g.owner);
      }
    }
  }

  lemma StillOk(n: nat, h: Handler, h': Handler, sending: bool, owner: map<nat, nat>)
    requires HandlerOk(n, h, sending, owner)
    requires h' == h.(pc := h'.pc)
    requires if HasAnswer(h.pc) then Result(h'.pc) == Result(h.pc) else !HasAnswer(h'.pc)
    requires h'.pc.Register? || h'.pc.Await? || h'.pc.Deregister? ==> h.request
    ensures HandlerOk(n, h', sending, owner)
  {
  }

  /** The table gains, at most, this handler under its own id, when it registers. */
  lemma HandlerStepPending(g: Shared, n: nat, h: Handler, c: Choice)
    ensures var e := HandlerStep(g, n, h, c);
            e.Next? ==> e.g.pending == if h.pc.Register? then g.pending[h.id := n]
                                       else if h.pc.Deregister? then g.pending - {h.id}
                                       else g.pending
  {
  }

  lemma PendingStaysOk(g: Shared, g': Shared, n: nat, handlers: map<nat, Handler>, h': Handler)
    requires n in handlers && PendingOk(g, handlers)
    requires h'.id == handlers[n].id && h'.request == handlers[n].request
    requires g'.pending == g.pending || (handlers[n].request && g'.pending == g.pending[h'.id := n]) || g'.pending == g.pending - {h'.id}
    ensures PendingOk(g', handlers[n := h'])
  {
  }

  /** A handler's step leaves everything that concerns the other handlers and the loop as it was. */
  lemma HandleRoutes(s: State, n: nat, c: Choice)
    requires RoutingOk(s) && Do(s, Handle(n, c)).Some?
    ensures RoutingOk(Do(s, Handle(n, c)).value)
  {
    var h := s.handlers[n];
    assert HandlerOk(n, h, Sending(s.loops, n), s.g.owner);
    HandlerStepRoutes(s.g, n, h, Sending(s.loops, n), c);
    HandlerStepFrame(s.g, n, h, c);
    HandlerStepPending(s.g, n, h, c);
    var e := HandlerStep(s.g, n, h, c);
    PendingStaysOk(s.g, e.g, n, s.handlers, e.h);
    var loops := s.loops;
    if h.pc.EnsureLoop? && !s.g.started {
      loops := s.loops[c.newLoop := Boot];
      SpawnKeepsSending(s, c.newLoop);
    }
    HandlerStepKeepsRecords(s, n, e.g, e.h, loops);
    SpawnKeepsLoops(s, n, e.g, e.h, c.newLoop);
  }

  lemma SpawnKeepsSending(s: State, l: nat)
    requires l !in s.loops
    ensures forall n :: Sending(s.loops[l := Boot], n) == Sending(s.loops, n)
  {
    var loops := s.loops[l := Boot];
    forall n ensures Sending(loops, n) == Sending(s.loops, n) {
      if Sending(s.loops, n) {
        var k :| k in s.loops && s.loops[k].Send? && s.loops[k].handler == n;
        assert k in loops && loops[k].Send?;
      }
    }
  }

  lemma HandlerStepKeepsRecords(s: State, n: nat, g: Shared, h: Handler, loops: map<nat, LoopPc>)
    requires HandlersOk(s.g, s.handlers, s.loops) && n in s.handlers && g.owner == s.g.owner
    requires forall k :: Sending(loops, k) == Sending(s.loops, k)
    requires HandlerOk(n, h, Sending(s.loops, n), g.owner)
    ensures HandlersOk(g, s.handlers[n := h], loops)
  {
  }

  lemma SpawnKeepsLoops(s: State, n: nat, g: Shared, h: Handler, l: nat)
    requires LoopsOk(s.g, s.handlers, s.loops) && n in s.handlers && h.hits == s.handlers[n].hits
    requires g.owner == s.g.owner && g.replies == s.g.replies && (s.g.started ==> g.started)
    ensures LoopsOk(g, s.handlers[n := h], s.loops)
    ensures !s.g.started && g.started ==> LoopsOk(g, s.handlers[n := h], s.loops[l := Boot])
  {
    forall a | a in s.loops ensures LoopOk(g, s.handlers[n := h], s.loops[a]) {
      assert LoopOk(s.g, s.handlers, s.loops[a]);
    }
  }

  // The steps of the loop.

  /** With a single loop, it alone decides who is being sent to. */
  lemma SendingIs(loops: map<nat, LoopPc>, l: nat, n: nat)
    requires l in loops && forall a, b :: a in loops && b in loops ==> a == b
    ensures Sending(loops, n) <==> loops[l].Send? && loops[l].handler == n
  {
  }

  lemma LoopMoves(s: State, l: nat, g: Shared, pc: LoopPc)
    requires RoutingOk(s) && l in s.loops && !s.loops[l].Send? && !pc.Send?
    requires g.owner == s.g.owner && g.replies >= s.g.replies && g.started == s.g.started && g.pending == s.g.pending
    requires LoopOk(g, s.handlers, pc)
    ensures RoutingOk(State(g, s.handlers, s.loops[l := pc]))
  {
    var loops := s.loops[l := pc];
    forall n | n in s.handlers ensures HandlerOk(n, s.handlers[n], Sending(loops, n), g.owner) {
      SendingIs(s.loops, l, n);
      SendingIs(loops, l, n);
      assert HandlerOk(n, s.handlers[n], Sending(s.loops, n), s.g.owner);
    }
  }

  lemma LoopGoes(s: State, l: nat, g: Shared)
    requires RoutingOk(s) && l in s.loops && !s.loops[l].Send?
    requires g == s.g.(started := g.started)
    ensures RoutingOk(State(g, s.handlers, s.loops - {l}))
  {
    var loops := s.loops - {l};
    assert loops == map[];
    forall n | n in s.handlers ensures HandlerOk(n, s.handlers[n], Sending(loops, n), g.owner) {
      SendingIs(s.loops, l, n);
      assert HandlerOk(n, s.handlers[n], Sending(s.loops, n), s.g.owner);
    }
  }

  lemma HitKeepsHandler(n: nat, h: Handler, reply: Reply, owner: map<nat, nat>)
    requires HandlerOk(n, h, false, owner) && reply.id == h.id && reply.serial !in owner
    ensures HandlerOk(n, h.(hits := h.hits + [reply]), true, owner[reply.serial := n])
  {
    var hits := h.hits + [reply];
    assert hits[..|hits| - 1] == h.hits;
  }

  lemma HitElsewhere(k: nat, h: Handler, serial: nat, n: nat, owner: map<nat, nat>)
    requires HandlerOk(k, h, false, owner) && serial !in owner
    ensures HandlerOk(k, h, false, owner[serial := n])
  {
  }

  /** A lookup that finds handler n. */
  lemma LookupRoutes(s: State, l: nat, n: nat)
    requires RoutingOk(s) && l in s.loops && s.loops[l].Lookup? && n in s.handlers && n in s.g.pending.Values
    requires s.handlers[n].id == s.loops[l].reply.id
    ensures var reply := s.loops[l].reply;
            RoutingOk(State(s.g.(owner := s.g.owner[reply.serial := n]),
                            s.handlers[n := s.handlers[n].(hits := s.handlers[n].hits + [reply])],
                            s.loops[l := Send(reply, n)]))
  {
    var reply := s.loops[l].reply;
    assert LoopOk(s.g, s.handlers, s.loops[l]);
    var h := s.handlers[n].(hits := s.handlers[n].hits + [reply]);
    var handlers, loops := s.handlers[n := h], s.loops[l := Send(reply, n)];
    var owner := s.g.owner[reply.serial := n];
    forall k | k in handlers ensures HandlerOk(k, handlers[k], Sending(loops, k), owner) {
      SendingIs(s.loops, l, k);
      SendingIs(loops, l, k);
      assert HandlerOk(k, s.handlers[k], false, s.g.owner);
      if k == n {
        HitKeepsHandler(n, s.handlers[n], reply, s.g.owner);
      } else {
        HitElsewhere(k, s.handlers[k], reply.serial, n, s.g.owner);
      }
    }
  }

  /** The nonblocking send: the response is kept if the channel is empty, dropped otherwise. */
  lemma SendRoutes(s: State, l: nat)
    requires RoutingOk(s) && l in s.loops && s.loops[l].Send?
    ensures var reply := s.loops[l].reply;
            var n := s.loops[l].handler;
            n in s.handlers
            && RoutingOk(State(s.g, s.handlers[n := if s.handlers[n].inbox == [] then s.handlers[n].(inbox := [reply]) else s.handlers[n]],
                            s.loops[l := Read]))
  {
    var reply := s.loops[l].reply;
    var n := s.loops[l].handler;
    assert LoopOk(s.g, s.handlers, s.loops[l]);
    var h := if s.handlers[n].inbox == [] then s.handlers[n].(inbox := [reply]) else s.handlers[n];
    var handlers, loops := s.handlers[n := h], s.loops[l := Read];
    forall k | k in handlers ensures HandlerOk(k, handlers[k], Sending(loops, k), s.g.owner) {
      SendingIs(s.loops, l, k);
      SendingIs(loops, l, k);
      assert HandlerOk(k, s.handlers[k], k == n, s.g.owner);
    }
  }

  lemma LoopRoutes(s: State, l: nat, input: Input)
    requires RoutingOk(s) && Do(s, Loop(l, input)).Some?
    ensures RoutingOk(Do(s, Loop(l, input)).value)
  {
    var pc := s.loops[l];
    match pc
    case Boot =>
      if input.NoStdout? { LoopGoes(s, l, s.g); } else { LoopMoves(s, l, s.g, Read); }
    case Read =>
      if input.Response? {
        LoopMoves(s, l, s.g.(replies := s.g.replies + 1), Lookup(Reply(input.id, s.g.replies, input.data)));
      } else {
        LoopMoves(s, l, s.g, if input.Failure? then MarkStopped else Read);
      }
    case Lookup(reply) =>
      if reply.id in s.g.pending { LookupRoutes(s, l, s.g.pending[reply.id]); } else { LoopMoves(s, l, s.g, Read); }
    case Send(reply, n) => SendRoutes(s, l);
    case MarkStopped => LoopGoes(s, l, s.g.(started := false));
  }

  lemma ArriveRoutes(s: State, n: nat, request: bool, id: string, body: string)
    requires RoutingOk(s) && n !in s.handlers
    ensures RoutingOk(Do(s, Arrive(n, request, id, body)).value)
  {
    var s' := Do(s, Arrive(n, request, id, body)).value;
    assert forall l :: l in s.loops ==> LoopOk(s.g, s.handlers, s.loops[l]);
    forall l | l in s'.loops ensures LoopOk(s'.g, s'.handlers, s'.loops[l]) {
      assert LoopOk(s.g, s.handlers, s.loops[l]);
    }
    forall k | k in s'.handlers ensures HandlerOk(k, s'.handlers[k], Sending(s'.loops, k), s'.g.owner) {
      if k != n {
        assert HandlerOk(k, s.handlers[k], Sending(s.loops, k), s.g.owner);
      }
    }
  }

  // ----- Invariant: the table holds exactly the registered, unfinished requests -----

  predicate Registered(h: Handler) {
    h.request && !h.pc.EnsureLoop? && !h.pc.Register? && !h.pc.Finished?
  }

  predicate Exact(g: Shared, handlers: map<nat, Handler>) {
    && (forall n :: n in handlers && Registered(handlers[n]) ==> handlers[n].id in g.pending && g.pending[handlers[n].id] == n)
    && (forall id :: id in g.pending ==> g.pending[id] in handlers && Registered(handlers[g.pending[id]]) && handlers[g.pending[id]].id == id)
  }

  /** Two registered, unfinished requests share an id string. */
  predicate Clash(handlers: map<nat, Handler>) {
    exists a, b :: a in handlers && b in handlers && a != b
                   && Registered(handlers[a]) && Registered(handlers[b]) && handlers[a].id == handlers[b].id
  }

  lemma RegistrationStep(g: Shared, n: nat, h: Handler, c: Choice)
    requires h.pc.Register? || h.pc.Await? || h.pc.Deregister? ==> h.request
    ensures var e := HandlerStep(g, n, h, c);
            e.Next? ==> Registered(e.h) == if h.pc.Register? then true else if h.pc.Deregister? then false else Registered(h)
  {
  }

  lemma ExactAfter(g: Shared, g': Shared, handlers: map<nat, Handler>, n: nat, h': Handler)
    requires Exact(g, handlers) && n in handlers && !Clash(handlers[n := h'])
    requires var h := handlers[n];
             && h'.id == h.id && h'.request == h.request
             && (h.pc.Register? || h.pc.Deregister? ==> h.request)
             && g'.pending == (if h.pc.Register? then g.pending[h.id := n] else if h.pc.Deregister? then g.pending - {h.id} else g.pending)
             && Registered(h') == if h.pc.Register? then true else if h.pc.Deregister? then false else Registered(h)
    ensures Exact(g', handlers[n := h'])
  {
    var h := handlers[n];
    var handlers' := handlers[n := h'];
    if h.pc.Deregister? {
      assert Registered(h) && g.pending[h.id] == n;
    } else if h.pc.Register? {
      forall m | m in handlers' && Registered(handlers'[m]) && m != n
        ensures handlers'[m].id in g'.pending && g'.pending[handlers'[m].id] == m
      {
        assert handlers'[n] == h' && Registered(handlers'[n]);
      }
    }
  }

  lemma StepKeepsExact(s: State, step: Step)
    requires RoutingOk(s) && Exact(s.g, s.handlers) && Do(s, step).Some? && !Clash(Do(s, step).value.handlers)
    ensures Exact(Do(s, step).value.g, Do(s, step).value.handlers)
  {
    match step
    case Arrive(n, request, id, body) =>
    case Handle(n, c) =>
      var h := s.handlers[n];
      assert HandlerOk(n, h, Sending(s.loops, n), s.g.owner);
      HandlerStepFrame(s.g, n, h, c);
      HandlerStepPending(s.g, n, h, c);
      RegistrationStep(s.g, n, h, c);
      var e := HandlerStep(s.g, n, h, c);
      ExactAfter(s.g, e.g, s.handlers, n, e.h);
    case Loop(l, input) => LoopKeepsExact(s, l, input);
  }

  /** The loop changes neither the table nor stdin, nor anything of a handler but its channel. */
  predicate SameShared(g: Shared, g': Shared) {
    && g'.pending == g.pending && g'.stdinLock == g.stdinLock && g'.stdin == g.stdin && g'.forwarded == g.forwarded && g'.broken == g.broken
  }

  predicate SameHandler(h: Handler, h': Handler) {
    h'.pc == h.pc && h'.id == h.id && h'.request == h.request && h'.body == h.body
  }

  lemma LoopStepFrame(g: Shared, handlers: map<nat, Handler>, pc: LoopPc, input: Input)
    ensures var e := LoopStep(g, handlers, pc, input);
            && (!e.Stuck? ==> SameShared(g, e.g))
            && (e.Deliver? ==> e.n in handlers && SameHandler(handlers[e.n], e.h))
  {
  }

  lemma LoopFrame(s: State, l: nat, input: Input)
    requires Do(s, Loop(l, input)).Some?
    ensures var s' := Do(s, Loop(l, input)).value;
            && SameShared(s.g, s'.g) && s'.handlers.Keys == s.handlers.Keys
            && forall n :: n in s.handlers ==> SameHandler(s.handlers[n], s'.handlers[n])
  {
    LoopStepFrame(s.g, s.handlers, s.loops[l], input);
  }

  lemma LoopKeepsExact(s: State, l: nat, input: Input)
    requires Exact(s.g, s.handlers) && Do(s, Loop(l, input)).Some?
    ensures Exact(Do(s, Loop(l, input)).value.g, Do(s, Loop(l, input)).value.handlers)
  {
    LoopFrame(s, l, input);
    var s' := Do(s, Loop(l, input)).value;
    assert forall n :: n in s.handlers ==> Registered(s'.handlers[n]) == Registered(s.handlers[n]);
  }

  // ----- Invariant: the subprocess reads whole messages -----

  predicate Holds(pc: HandlerPc) { pc.CheckStdin? || pc.WriteBody? || pc.WriteNewline? || pc.UnlockStdin? }

  /** What has been written of the message in progress. */
  function Begun(h: Handler): string { if h.pc.WriteNewline? then h.body else "" }

  function Tail(g: Shared, handlers: map<nat, Handler>): string {
    if g.stdinLock.Some? && g.stdinLock.value in handlers then Begun(handlers[g.stdinLock.value]) else ""
  }

  predicate Whole(g: Shared, tail: string) { !g.broken ==> g.stdin == Unlines(g.forwarded) + tail }

  predicate StreamOk(g: Shared, handlers: map<nat, Handler>) {
    && (g.stdinLock.Some? ==> g.stdinLock.value in handlers)
    && (forall n :: n in handlers ==> (Holds(handlers[n].pc) <==> g.stdinLock == Some(n)))
    && Whole(g, Tail(g, handlers))
  }

  predicate SameStream(g: Shared, g': Shared) { g'.stdin == g.stdin && g'.forwarded == g.forwarded && g'.broken == g.broken }

  /** Only the holder of the mutex writes. */
  lemma OthersDoNotWrite(g: Shared, n: nat, h: Handler, c: Choice)
    requires !Holds(h.pc) && g.stdinLock != Some(n)
    ensures var e := HandlerStep(g, n, h, c);
            e.Next? ==>
              && SameStream(g, e.g) && Begun(e.h) == ""
              && (if Holds(e.h.pc) then g.stdinLock.None? && e.g.stdinLock == Some(n) else e.g.stdinLock == g.stdinLock)
  {
  }

  lemma HolderWrites(g: Shared, n: nat, h: Handler, c: Choice)
    requires Holds(h.pc) && g.stdinLock == Some(n) && Whole(g, Begun(h))
    ensures var e := HandlerStep(g, n, h, c);
            e.Next? ==>
              && Whole(e.g, Begun(e.h))
              && (if Holds(e.h.pc) then e.g.stdinLock == Some(n) else e.g.stdinLock.None? && Begun(e.h) == "")
  {
    var lines := Unlines(g.forwarded);
    assert lines + "" == lines;
    if h.pc.WriteNewline? {
      UnlinesGrows(g.forwarded, h.body);
      assert Unlines(g.forwarded + [h.body]) + "" == lines + h.body + "\n";
    }
  }

  lemma StepKeepsStream(s: State, step: Step)
    requires StreamOk(s.g, s.handlers) && Do(s, step).Some?
    ensures StreamOk(Do(s, step).value.g, Do(s, step).value.handlers)
  {
    match step
    case Arrive(n, request, id, body) =>
    case Handle(n, c) => HandleKeepsStream(s, n, c);
    case Loop(l, input) => LoopFrame(s, l, input);
  }

  lemma HandleKeepsStream(s: State, n: nat, c: Choice)
    requires StreamOk(s.g, s.handlers) && Do(s, Handle(n, c)).Some?
    ensures StreamOk(Do(s, Handle(n, c)).value.g, Do(s, Handle(n, c)).value.handlers)
  {
    var h := s.handlers[n];
    if Holds(h.pc) {
      HolderWrites(s.g, n, h, c);
    } else {
      OthersDoNotWrite(s.g, n, h, c);
    }
    var e := HandlerStep(s.g, n, h, c);
    var handlers := s.handlers[n := e.h];
    forall k | k in handlers ensures Holds(handlers[k].pc) <==> e.g.stdinLock == Some(k) {
      if k != n {
        assert Holds(s.handlers[k].pc) <==> s.g.stdinLock == Some(k);
      }
    }
  }

  // ----- Runs -----

  predicate Good(s: State) { RoutingOk(s) && StreamOk(s.g, s.handlers) }

  lemma StepIsGood(s: State, step: Step)
    requires Good(s) && Do(s, step).Some?
    ensures Good(Do(s, step).value)
  {
    match step {
      case Arrive(n, request, id, body) => ArriveRoutes(s, n, request, id, body);
      case Handle(n, c) => HandleRoutes(s, n, c);
      case Loop(l, input) => LoopRoutes(s, l, input);
    }
    StepKeepsStream(s, step);
  }

  lemma {:induction false} RunIsGood(s: State, steps: seq<Step>)
    requires Good(s) && Exec(s, steps).Some?
    ensures Good(Exec(s, steps).value)
    decreases steps
  {
    if steps != [] {
      StepIsGood(s, steps[0]);
      RunIsGood(Do(s, steps[0]).value, steps[1..]);
    }
  }

  // ----- Main results -----

  /**
   In every interleaving, whatever a handler is sent or reports as its answer carries the handler's
   own id string, and what it reports is the first response that was routed to it.
   */
  lemma AnswersMatchRequests(steps: seq<Step>, n: nat)
    requires Exec(INIT, steps).Some? && n in Exec(INIT, steps).value.handlers
    ensures var h := Exec(INIT, steps).value.handlers[n];
            && (forall r :: r in h.hits ==> r.id == h.id)
            && (forall r :: Result(h.pc) == Some(Answered(r)) ==> h.hits != [] && r == h.hits[0] && r.id == h.id)
  {
    RunIsGood(INIT, steps);
    var s := Exec(INIT, steps).value;
    assert HandlerOk(n, s.handlers[n], Sending(s.loops, n), s.g.owner);
  }

  /** In every interleaving, each response reaches at most one handler, even when id strings are reused. */
  lemma ResponseReachesOneHandler(steps: seq<Step>, a: nat, b: nat, r: Reply, q: Reply)
    requires Exec(INIT, steps).Some?
    requires var handlers := Exec(INIT, steps).value.handlers;
             a in handlers && b in handlers && r in handlers[a].hits && q in handlers[b].hits && r.serial == q.serial
    ensures a == b
  {
    RunIsGood(INIT, steps);
    var s := Exec(INIT, steps).value;
    assert HandlerOk(a, s.handlers[a], Sending(s.loops, a), s.g.owner);
    assert HandlerOk(b, s.handlers[b], Sending(s.loops, b), s.g.owner);
  }

  /**
   In every interleaving, the first response whose lookup found a handler is never dropped: it is in
   the loop's hand, in the handler's channel, or is the handler's answer.
   */
  lemma FirstResponseIsKept(steps: seq<Step>, n: nat)
    requires Exec(INIT, steps).Some? && n in Exec(INIT, steps).value.handlers
    requires Exec(INIT, steps).value.handlers[n].hits != []
    ensures var s := Exec(INIT, steps).value;
            var h := s.handlers[n];
            || (|h.hits| == 1 && exists l :: l in s.loops && s.loops[l] == Send(h.hits[0], n))
            || h.inbox == [h.hits[0]]
            || Result(h.pc) == Some(Answered(h.hits[0]))
  {
    RunIsGood(INIT, steps);
    var s := Exec(INIT, steps).value;
    var h := s.handlers[n];
    assert HandlerOk(n, h, Sending(s.loops, n), s.g.owner);
    if Sending(s.loops, n) && |h.hits| == 1 {
      var l :| l in s.loops && s.loops[l].Send? && s.loops[l].handler == n;
      assert LoopOk(s.g, s.handlers, s.loops[l]);
      assert s.loops[l] == Send(h.hits[0], n);
    }
  }

  /** At every state of the run, from s on, no two registered requests share an id string. */
  predicate NeverClashes(s: State, steps: seq<Step>)
    requires Exec(s, steps).Some?
    decreases steps
  {
    !Clash(s.handlers) && (steps != [] ==> NeverClashes(Do(s, steps[0]).value, steps[1..]))
  }

  /** At every state of the run, from s on, the table holds exactly the registered, unfinished requests. */
  predicate AlwaysExact(s: State, steps: seq<Step>)
    requires Exec(s, steps).Some?
    decreases steps
  {
    Exact(s.g, s.handlers) && (steps != [] ==> AlwaysExact(Do(s, steps[0]).value, steps[1..]))
  }

  lemma ExactMeansNoClash(g: Shared, handlers: map<nat, Handler>)
    requires Exact(g, handlers)
    ensures !Clash(handlers)
  {
  }

  lemma {:induction false} RunIsExactIff(s: State, steps: seq<Step>)
    requires Good(s) && Exec(s, steps).Some? && (Clash(s.handlers) || Exact(s.g, s.handlers))
    ensures AlwaysExact(s, steps) <==> NeverClashes(s, steps)
    ensures NeverClashes(s, steps) ==> Exact(Exec(s, steps).value.g, Exec(s, steps).value.handlers)
    decreases steps
  {
    if Exact(s.g, s.handlers) {
      ExactMeansNoClash(s.g, s.handlers);
    }
    if steps != [] && !Clash(s.handlers) {
      var s' := Do(s, steps[0]).value;
      StepIsGood(s, steps[0]);
      if !Clash(s'.handlers) {
        StepKeepsExact(s, steps[0]);
      }
      RunIsExactIff(s', steps[1..]);
    }
  }

  /**
   In every interleaving, the pending table holds exactly the registered, unfinished requests at every
   state if and only if at no state two of these share an id string. An id string may be used again
   once the earlier request is done.
   */
  lemma TableIsExactIff(steps: seq<Step>)
    requires Exec(INIT, steps).Some?
    ensures AlwaysExact(INIT, steps) <==> NeverClashes(INIT, steps)
  {
    RunIsExactIff(INIT, steps);
  }

  /** A lookup takes the response to the given handler, or drops it. */
  ghost predicate LooksUp(s: State, l: nat, to: Option<nat>)
    requires l in s.loops && s.loops[l].Lookup?
  {
    var reply := s.loops[l].reply;
    forall input ::
      Do(s, Loop(l, input)) ==
        if to.None? then Some(State(s.g, s.handlers, s.loops[l := Read]))
        else if to.value !in s.handlers then None
        else
          var h := s.handlers[to.value];
          Some(State(s.g.(owner := s.g.owner[reply.serial := to.value]),
                     s.handlers[to.value := h.(hits := h.hits + [reply])],
                     s.loops[l := Send(reply, to.value)]))
  }

  /** Hence, after such a run, a response is routed to the registered, unfinished request with its id string, and dropped only if there is none. */
  lemma ResponseFindsItsRequest(steps: seq<Step>, l: nat)
    requires Exec(INIT, steps).Some? && NeverClashes(INIT, steps)
    requires l in Exec(INIT, steps).value.loops && Exec(INIT, steps).value.loops[l].Lookup?
    ensures var s := Exec(INIT, steps).value;
            var id := s.loops[l].reply.id;
            && (forall n :: n in s.handlers && Registered(s.handlers[n]) && s.handlers[n].id == id ==> LooksUp(s, l, Some(n)))
            && ((forall n :: n in s.handlers && Registered(s.handlers[n]) ==> s.handlers[n].id != id) ==> LooksUp(s, l, None))
  {
    RunIsExactIff(INIT, steps);
    var s := Exec(INIT, steps).value;
    var id := s.loops[l].reply.id;
    if id in s.g.pending {
      LookupHits(s, l, s.g.pending[id]);
    } else {
      LookupMisses(s, l);
    }
  }

  lemma LookupHits(s: State, l: nat, n: nat)
    requires l in s.loops && s.loops[l].Lookup? && s.loops[l].reply.id in s.g.pending && n == s.g.pending[s.loops[l].reply.id]
    ensures n in s.handlers ==> LooksUp(s, l, Some(n))
  {
  }

  lemma LookupMisses(s: State, l: nat)
    requires l in s.loops && s.loops[l].Lookup? && s.loops[l].reply.id !in s.g.pending
    ensures LooksUp(s, l, None)
  {
  }

  /** In every interleaving at most one read loop is alive, and only while the flag says so. */
  lemma AtMostOneLoop(steps: seq<Step>, a: nat, b: nat)
    requires Exec(INIT, steps).Some? && a in Exec(INIT, steps).value.loops && b in Exec(INIT, steps).value.loops
    ensures a == b && Exec(INIT, steps).value.g.started
  {
    RunIsGood(INIT, steps);
  }

  /** Unless a write has failed, the subprocess has been sent whole messages, one line each, plus what the holder of the mutex has begun. */
  lemma MessagesDoNotInterleave(steps: seq<Step>)
    requires Exec(INIT, steps).Some? && !Exec(INIT, steps).value.g.broken
    ensures var s := Exec(INIT, steps).value;
            && s.g.stdin == Unlines(s.g.forwarded) + Tail(s.g, s.handlers)
            && (s.g.stdinLock.None? ==> s.g.stdin == Unlines(s.g.forwarded))
  {
    RunIsGood(INIT, steps);
    var s := Exec(INIT, steps).value;
    assert Unlines(s.g.forwarded) + "" == Unlines(s.g.forwarded);
  }

  // ----- A missing stdout -----

  /** The flag is set and no loop is left to clear it. */
  predicate Silent(s: State) { s.g.started && s.loops == map[] }

  lemma StepStaysSilent(s: State, step: Step)
    requires Silent(s) && Do(s, step).Some?
    ensures var s' := Do(s, step).value;
            && Silent(s')
            && forall n :: n in s'.handlers ==> s'.handlers[n].hits == if n in s.handlers then s.handlers[n].hits else []
  {
    match step
    case Arrive(_, _, _, _) =>
    case Handle(n, c) => HandlerStepFrame(s.g, n, s.handlers[n], c);
    case Loop(_, _) =>
  }

  lemma {:induction false} RunStaysSilent(s: State, steps: seq<Step>)
    requires Silent(s) && Exec(s, steps).Some?
    ensures var s' := Exec(s, steps).value;
            && Silent(s')
            && forall n :: n in s'.handlers ==> s'.handlers[n].hits == if n in s.handlers then s.handlers[n].hits else []
    decreases steps
  {
    if steps != [] {
      StepStaysSilent(s, steps[0]);
      RunStaysSilent(Do(s, steps[0]).value, steps[1..]);
    }
  }

  /**
   A read loop that finds no stdout leaves the flag set: however the run continues, no loop starts
   again and no request that arrives later is ever answered. A loop that fails to read clears it.
   */
  lemma MissingStdoutSilencesForGood(steps: seq<Step>, l: nat, rest: seq<Step>, n: nat)
    requires Exec(INIT, steps).Some? && l in Exec(INIT, steps).value.loops && Exec(INIT, steps).value.loops[l].Boot?
    requires var s := Do(Exec(INIT, steps).value, Loop(l, NoStdout));
             Exec(s.value, rest).Some? && n in Exec(s.value, rest).value.handlers && n !in s.value.handlers
    ensures var s' := Exec(Do(Exec(INIT, steps).value, Loop(l, NoStdout)).value, rest).value;
            s'.loops == map[] && !HasAnswer(s'.handlers[n].pc)
  {
    var s := Exec(INIT, steps).value;
    RunIsGood(INIT, steps);
    StepIsGood(s, Loop(l, NoStdout));
    var s1 := Do(s, Loop(l, NoStdout)).value;
    assert s1.loops == map[];
    RunStaysSilent(s1, rest);
    RunIsGood(s1, rest);
    var s' := Exec(s1, rest).value;
    assert HandlerOk(n, s'.handlers[n], Sending(s'.loops, n), s'.g.owner);
  }

  /** The step in which a starting loop finds that there is no stdout. */
  predicate FindsNoStdout(s: State, step: Step) {
    step.Loop? && step.n in s.loops && s.loops[step.n].Boot? && step.input.NoStdout?
  }

  predicate EverFindsNoStdout(s: State, steps: seq<Step>)
    requires Exec(s, steps).Some?
    decreases steps
  {
    steps != [] && (FindsNoStdout(s, steps[0]) || EverFindsNoStdout(Do(s, steps[0]).value, steps[1..]))
  }

  lemma StepSilencesIff(s: State, step: Step)
    requires RoutingOk(s) && !Silent(s) && Do(s, step).Some?
    ensures Silent(Do(s, step).value) <==> FindsNoStdout(s, step)
  {
    match step
    case Arrive(_, _, _, _) =>
    case Handle(n, c) =>
      HandlerStepFrame(s.g, n, s.handlers[n], c);
      var s' := Do(s, step).value;
      assert s.handlers[n].pc.EnsureLoop? && !s.g.started ==> c.newLoop in s'.loops;
    case Loop(l, input) => LoopSilencesIff(s, l, input);
  }

  lemma LoopSilencesIff(s: State, l: nat, input: Input)
    requires RoutingOk(s) && Do(s, Loop(l, input)).Some?
    ensures Silent(Do(s, Loop(l, input)).value) <==> FindsNoStdout(s, Loop(l, input))
  {
    var s' := Do(s, Loop(l, input)).value;
    var e := LoopStep(s.g, s.handlers, s.loops[l], input);
    assert e.Gone? ==> s.loops - {l} == map[];
    assert !e.Gone? ==> l in s'.loops;
  }

  lemma {:induction false} RunSilencesIff(s: State, steps: seq<Step>)
    requires Good(s) && !Silent(s) && Exec(s, steps).Some?
    ensures Silent(Exec(s, steps).value) <==> EverFindsNoStdout(s, steps)
    decreases steps
  {
    if steps != [] {
      var s' := Do(s, steps[0]).value;
      StepSilencesIff(s, steps[0]);
      StepIsGood(s, steps[0]);
      if Silent(s') {
        RunStaysSilent(s', steps[1..]);
      } else {
        RunSilencesIff(s', steps[1..]);
      }
    }
  }

  /**
   In every interleaving, the bridge ends up with the flag set and no loop left if and only if at some
   step a starting loop found no stdout; and from then on no loop is ever alive again.
   */
  lemma SilentIff(steps: seq<Step>)
    requires Exec(INIT, steps).Some?
    ensures Silent(Exec(INIT, steps).value) <==> EverFindsNoStdout(INIT, steps)
  {
    RunSilencesIff(INIT, steps);
  }

  // ----- A reused id string -----

  const GO := Choice(true, 0, OnTimeout, 0)
  const STOP := Choice(false, 0, OnTimeout, 0)

  lemma OneStep(s: State, step: Step, rest: seq<Step>)
    requires Do(s, step).Some?
    ensures Exec(s, [step] + rest) == Exec(Do(s, step).value, rest)
  {
    assert ([step] + rest)[1..] == rest;
  }

  /** Handlers 1 and 2 are requests with the same id, at these statements. */
  predicate Pair(s: State, pc1: HandlerPc, pc2: HandlerPc, pending: map<string, nat>, lock: Option<nat>) {
    && s.handlers.Keys == {1, 2}
    && s.handlers[1] == Handler(true, "1", "first", pc1, [], [])
    && s.handlers[2] == Handler(true, "1", "second", pc2, [], [])
    && s.g.pending == pending && s.g.stdinLock == lock && s.g.started
  }

  function Opening(rest: seq<Step>): seq<Step> {
    [Arrive(1, true, "1", "first")] + ([Handle(1, GO)] + ([Arrive(2, true, "1", "second")] + rest))
  }

  lemma BothArrive(rest: seq<Step>) returns (s: State)
    ensures Exec(INIT, Opening(rest)) == Exec(s, rest)
    ensures Pair(s, Register, EnsureLoop, map[], None)
  {
    OneStep(INIT, Arrive(1, true, "1", "first"), [Handle(1, GO)] + ([Arrive(2, true, "1", "second")] + rest));
    s := Do(INIT, Arrive(1, true, "1", "first")).value;
    OneStep(s, Handle(1, GO), [Arrive(2, true, "1", "second")] + rest);
    s := Do(s, Handle(1, GO)).value;
    OneStep(s, Arrive(2, true, "1", "second"), rest);
    s := Do(s, Arrive(2, true, "1", "second")).value;
  }

  function Enrol(rest: seq<Step>): seq<Step> { [Handle(1, GO)] + ([Handle(2, GO)] + ([Handle(2, GO)] + rest)) }

  lemma BothRegister(s: State, rest: seq<Step>) returns (s': State)
    requires Pair(s, Register, EnsureLoop, map[], None)
    ensures Exec(s, Enrol(rest)) == Exec(s', rest)
    ensures Pair(s', LockStdin, LockStdin, map["1" := 2], None)
  {
    OneStep(s, Handle(1, GO), [Handle(2, GO)] + ([Handle(2, GO)] + rest));
    s' := Do(s, Handle(1, GO)).value;
    OneStep(s', Handle(2, GO), [Handle(2, GO)] + rest);
    s' := Do(s', Handle(2, GO)).value;
    OneStep(s', Handle(2, GO), rest);
    s' := Do(s', Handle(2, GO)).value;
  }

  function Leave(rest: seq<Step>): seq<Step> {
    [Handle(2, GO)] + ([Handle(2, STOP)] + ([Handle(2, GO)] + ([Handle(2, GO)] + rest)))
  }

  lemma SecondLeaves(s: State, rest: seq<Step>) returns (s': State)
    requires Pair(s, LockStdin, LockStdin, map["1" := 2], None)
    ensures Exec(s, Leave(rest)) == Exec(s', rest)
    ensures Pair(s', LockStdin, Finished(Unavailable), map[], None)
  {
    OneStep(s, Handle(2, GO), [Handle(2, STOP)] + ([Handle(2, GO)] + ([Handle(2, GO)] + rest)));
    s' := Do(s, Handle(2, GO)).value;
    OneStep(s', Handle(2, STOP), [Handle(2, GO)] + ([Handle(2, GO)] + rest));
    s' := Do(s', Handle(2, STOP)).value;
    OneStep(s', Handle(2, GO), [Handle(2, GO)] + rest);
    s' := Do(s', Handle(2, GO)).value;
    OneStep(s', Handle(2, GO), rest);
    s' := Do(s', Handle(2, GO)).value;
    assert map["1" := 2] - {"1"} == map[];
  }

  /**
   A clash can happen: two clients that both use the id string 1 at the same time share one entry, so
   when the second is done, the first has lost its registration and its response will be dropped.
   */
  lemma ReusedIdLosesARegistration()
    ensures exists steps :: Exec(INIT, steps).Some?
              && var s := Exec(INIT, steps).value;
                 1 in s.handlers && Registered(s.handlers[1]) && s.g.pending == map[]
  {
    var s := BothArrive(Enrol(Leave([])));
    s := BothRegister(s, Leave([]));
    s := SecondLeaves(s, []);
    assert Exec(INIT, Opening(Enrol(Leave([])))) == Some(s);
  }

  // ----- A missing stdout, as a run -----

  predicate Alone(s: State, pc: HandlerPc, lock: Option<nat>) {
    Silent(s) && s.handlers == map[1 := Handler(true, "1", "body", pc, [], [])] && s.g.stdinLock == lock
  }

  /** The first request starts the loop, which finds no stdout. */
  function LosingStdout(rest: seq<Step>): seq<Step> {
    [Arrive(1, true, "1", "body")] + ([Handle(1, GO)] + ([Loop(0, NoStdout)] + rest))
  }

  lemma LoopFindsNothing(rest: seq<Step>) returns (s: State)
    ensures Exec(INIT, LosingStdout(rest)) == Exec(s, rest) && Alone(s, Register, None)
  {
    OneStep(INIT, Arrive(1, true, "1", "body"), [Handle(1, GO)] + ([Loop(0, NoStdout)] + rest));
    s := Do(INIT, Arrive(1, true, "1", "body")).value;
    OneStep(s, Handle(1, GO), [Loop(0, NoStdout)] + rest);
    s := Do(s, Handle(1, GO)).value;
    OneStep(s, Loop(0, NoStdout), rest);
    s := Do(s, Loop(0, NoStdout)).value;
    assert s.loops == map[];
    assert s.handlers == map[1 := s.handlers[1]];
  }

  lemma AloneMoves(s: State, pc: HandlerPc, lock: Option<nat>, pc': HandlerPc, lock': Option<nat>, rest: seq<Step>) returns (s': State)
    requires Alone(s, pc, lock)
    requires HandlerStep(s.g, 1, s.handlers[1], GO).Next?
    requires HandlerStep(s.g, 1, s.handlers[1], GO).h == s.handlers[1].(pc := pc')
    requires HandlerStep(s.g, 1, s.handlers[1], GO).g.stdinLock == lock' && HandlerStep(s.g, 1, s.handlers[1], GO).g.started
    ensures Exec(s, [Handle(1, GO)] + rest) == Exec(s', rest) && Alone(s', pc', lock')
  {
    OneStep(s, Handle(1, GO), rest);
    s' := Do(s, Handle(1, GO)).value;
    assert s'.handlers == map[1 := s.handlers[1].(pc := pc')];
  }

  function Thrice(rest: seq<Step>): seq<Step> { [Handle(1, GO)] + ([Handle(1, GO)] + ([Handle(1, GO)] + rest)) }

  lemma AloneBegins(s: State, rest: seq<Step>) returns (s': State)
    requires Alone(s, Register, None)
    ensures Exec(s, Thrice(rest)) == Exec(s', rest) && Alone(s', WriteBody, Some(1))
  {
    s' := AloneMoves(s, Register, None, LockStdin, None, [Handle(1, GO)] + ([Handle(1, GO)] + rest));
    s' := AloneMoves(s', LockStdin, None, CheckStdin, Some(1), [Handle(1, GO)] + rest);
    s' := AloneMoves(s', CheckStdin, Some(1), WriteBody, Some(1), rest);
  }

  lemma AloneFinishes(s: State, rest: seq<Step>) returns (s': State)
    requires Alone(s, WriteBody, Some(1))
    ensures Exec(s, Thrice(rest)) == Exec(s', rest) && Alone(s', Await, None)
  {
    s' := AloneMoves(s, WriteBody, Some(1), WriteNewline, Some(1), [Handle(1, GO)] + ([Handle(1, GO)] + rest));
    s' := AloneMoves(s', WriteNewline, Some(1), UnlockStdin(None), Some(1), [Handle(1, GO)] + rest);
    s' := AloneMoves(s', UnlockStdin(None), Some(1), Await, None, rest);
  }

  /**
   Such a run exists: the first request starts a loop that finds no stdout, is then forwarded to the
   subprocess in full, and waits with nobody to route its response.
   */
  lemma StdoutCanBeMissing()
    ensures exists steps :: Exec(INIT, steps).Some?
              && var s := Exec(INIT, steps).value;
                 Silent(s) && 1 in s.handlers && s.handlers[1].pc.Await? && s.handlers[1].inbox == []
  {
    var s := LoopFindsNothing(Thrice(Thrice([])));
    s := AloneBegins(s, Thrice([]));
    s := AloneFinishes(s, []);
    assert Exec(INIT, LosingStdout(Thrice(Thrice([])))) == Some(s);
  }
}
