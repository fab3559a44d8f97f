/** Where replies and forwarded messages come from in a run of the bridge, and what one request does undisturbed. */
module CorrelationRuns {
  import opened Common
  import opened SseFormat
  import opened Correlation

  // ----- Where replies come from -----

  /** The responses that the read loop takes from the subprocess, in order. */
  function Heard(s: State, steps: seq<Step>): seq<Input>
    requires Exec(s, steps).Some?
    decreases steps
  {
    if steps == [] then []
    else
      var rest := Heard(Do(s, steps[0]).value, steps[1..]);
      if HearsResponse(s, steps[0]) then [steps[0].input] + rest else rest
  }

  predicate HearsResponse(s: State, step: Step) {
    step.Loop? && step.input.Response? && step.n in s.loops && s.loops[step.n].Read?
  }

  /** The response with this serial number was this one. */
  predicate IsFrom(r: Reply, heard: seq<Input>) { r.serial < |heard| && heard[r.serial] == Response(r.id, r.data) }

  predicate LoopsFrom(loops: map<nat, LoopPc>, heard: seq<Input>) {
    forall l :: l in loops ==> (loops[l].Lookup? || loops[l].Send? ==> IsFrom(loops[l].reply, heard))
  }

  predicate HitsFrom(handlers: map<nat, Handler>, heard: seq<Input>) {
    forall n, r :: n in handlers && r in handlers[n].hits ==> IsFrom(r, heard)
  }

  predicate AllFrom(s: State, heard: seq<Input>) {
    s.g.replies == |heard| && LoopsFrom(s.loops, heard) && HitsFrom(s.handlers, heard)
  }

  lemma MoreHeard(s: State, heard: seq<Input>, more: seq<Input>)
    requires LoopsFrom(s.loops, heard) && HitsFrom(s.handlers, heard)
    ensures LoopsFrom(s.loops, heard + more) && HitsFrom(s.handlers, heard + more)
  {
    assert forall r: Reply :: IsFrom(r, heard) ==> IsFrom(r, heard + more);
  }

  lemma LoopKeepsFrom(s: State, l: nat, input: Input, heard: seq<Input>)
    requires AllFrom(s, heard) && Do(s, Loop(l, input)).Some?
    ensures AllFrom(Do(s, Loop(l, input)).value, if HearsResponse(s, Loop(l, input)) then heard + [input] else heard)
  {
    MoreHeard(s, heard, [input]);
  }

  lemma StepKeepsFrom(s: State, step: Step, heard: seq<Input>)
    requires AllFrom(s, heard) && Do(s, step).Some?
    ensures AllFrom(Do(s, step).value, if HearsResponse(s, step) then heard + [step.input] else heard)
  {
    match step
    case Arrive(_, _, _, _) =>
    case Handle(n, c) => HandlerStepFrame(s.g, n, s.handlers[n], c);
    case Loop(l, input) => LoopKeepsFrom(s, l, input, heard);
  }

  lemma {:induction false} RunKeepsFrom(s: State, steps: seq<Step>, heard: seq<Input>)
    requires AllFrom(s, heard) && Exec(s, steps).Some?
    ensures AllFrom(Exec(s, steps).value, heard + Heard(s, steps))
    decreases steps
  {
    if steps == [] {
      assert heard + [] == heard;
    } else {
      var s' := Do(s, steps[0]).value;
      StepKeepsFrom(s, steps[0], heard);
      var heard' := if HearsResponse(s, steps[0]) then heard + [steps[0].input] else heard;
      RunKeepsFrom(s', steps[1..], heard');
      assert heard' + Heard(s', steps[1..]) == heard + Heard(s, steps);
    }
  }

  /**
   In every interleaving, whatever response a handler was routed, has in its channel or reports as its
   answer, the subprocess sent: the response number r.serial that the loop read had that id and that data.
   The id is the one with which the handler's request arrived.
   */
  lemma RepliesComeFromTheSubprocess(steps: seq<Step>, n: nat, r: Reply)
    requires Exec(INIT, steps).Some? && n in Exec(INIT, steps).value.handlers
    requires var h := Exec(INIT, steps).value.handlers[n]; r in h.hits || r in h.inbox || Result(h.pc) == Some(Answered(r))
    ensures var heard := Heard(INIT, steps);
            r.serial < |heard| && heard[r.serial] == Response(r.id, r.data)
    ensures exists k :: 0 <= k < |steps| && steps[k].Arrive? && steps[k].n == n && steps[k].id == r.id
  {
    RunIsGood(INIT, steps);
    RunKeepsFrom(INIT, steps, []);
    RunKeepsInbox(INIT, steps);
    var s := Exec(INIT, steps).value;
    RoutedWasHit(n, s.handlers[n], Sending(s.loops, n), s.g.owner, r);
    assert IsFrom(r, Heard(INIT, steps)) by {
      assert [] + Heard(INIT, steps) == Heard(INIT, steps);
    }
    var k := HandlersArrived(INIT, steps, n);
  }

  predicate InboxHits(handlers: map<nat, Handler>) {
    forall n, r :: n in handlers && r in handlers[n].inbox ==> r in handlers[n].hits
  }

  lemma StepKeepsInbox(s: State, step: Step)
    requires RoutingOk(s) && InboxHits(s.handlers) && Do(s, step).Some?
    ensures InboxHits(Do(s, step).value.handlers)
  {
    match step
    case Arrive(_, _, _, _) =>
    case Handle(n, c) =>
      HandlerStepFrame(s.g, n, s.handlers[n], c);
      HandlerTakes(s.g, n, s.handlers[n], c);
    case Loop(l, input) =>
      assert LoopOk(s.g, s.handlers, s.loops[l]);
  }

  lemma HandlerTakes(g: Shared, n: nat, h: Handler, c: Choice)
    ensures var e := HandlerStep(g, n, h, c); e.Next? ==> forall r :: r in e.h.inbox ==> r in h.inbox
  {
  }

  lemma {:induction false} RunKeepsInbox(s: State, steps: seq<Step>)
    requires Good(s) && InboxHits(s.handlers) && Exec(s, steps).Some?
    ensures InboxHits(Exec(s, steps).value.handlers)
    decreases steps
  {
    if steps != [] {
      StepIsGood(s, steps[0]);
      StepKeepsInbox(s, steps[0]);
      RunKeepsInbox(Do(s, steps[0]).value, steps[1..]);
    }
  }

  lemma RoutedWasHit(n: nat, h: Handler, sending: bool, owner: map<nat, nat>, r: Reply)
    requires HandlerOk(n, h, sending, owner) && (r in h.hits || r in h.inbox || Result(h.pc) == Some(Answered(r)))
    requires r in h.inbox ==> r in h.hits
    ensures r in h.hits && r.id == h.id
  {
    var settled := if sending then h.hits[..|h.hits| - 1] else h.hits;
    assert settled != [] ==> settled[0] == h.hits[0] && h.hits[0] in h.hits;
  }

  // ----- Handlers are the messages that arrived -----

  lemma StepKeepsIdentity(s: State, step: Step, n: nat)
    requires Do(s, step).Some?
    ensures n in s.handlers ==>
              n in Do(s, step).value.handlers
              && var h, h' := s.handlers[n], Do(s, step).value.handlers[n];
                 h'.request == h.request && h'.id == h.id && h'.body == h.body
    ensures n !in s.handlers && n in Do(s, step).value.handlers ==>
              var h := Do(s, step).value.handlers[n]; step == Arrive(n, h.request, h.id, h.body)
  {
    match step
    case Arrive(_, _, _, _) =>
    case Handle(m, c) => HandlerStepFrame(s.g, m, s.handlers[m], c);
    case Loop(l, input) => LoopFrame(s, l, input);
  }

  /** A handler stands for the message with which it arrived, from its first step to its last. */
  lemma {:induction false} HandlersArrived(s: State, steps: seq<Step>, n: nat) returns (k: nat)
    requires Exec(s, steps).Some? && n in Exec(s, steps).value.handlers
    ensures var h := Exec(s, steps).value.handlers[n];
            if n in s.handlers then h.request == s.handlers[n].request && h.id == s.handlers[n].id && h.body == s.handlers[n].body
            else k < |steps| && steps[k] == Arrive(n, h.request, h.id, h.body)
    decreases steps
  {
    k := 0;
    if steps != [] {
      var s' := Do(s, steps[0]).value;
      StepKeepsIdentity(s, steps[0], n);
      k := HandlersArrived(s', steps[1..], n);
      if n !in s.handlers {
        if n in s'.handlers {
          k := 0;
        } else {
          k := k + 1;
        }
      }
    }
  }

  // ----- What the subprocess is sent -----

  /** Both writes of the handler's message have succeeded. */
  predicate Sent(pc: HandlerPc) {
    match pc
    case UnlockStdin(failure) => failure.None?
    case Await => true
    case Deregister(result) => !result.Unavailable? && !result.WriteFailed?
    case Finished(result) => !result.Unavailable? && !result.WriteFailed?
    case _ => false
  }

  /** The messages forwarded are those of these handlers, in this order; each once, and no other handler has sent its own. */
  predicate ForwardedBy(s: State, order: seq<nat>) {
    && |order| == |s.g.forwarded|
    && (forall i :: 0 <= i < |order| ==> order[i] in s.handlers && s.g.forwarded[i] == s.handlers[order[i]].body)
    && (forall i, j :: 0 <= i < j < |order| ==> order[i] != order[j])
    && (forall n :: n in s.handlers ==> (Sent(s.handlers[n].pc) <==> n in order))
  }

  lemma HandlerSends(g: Shared, n: nat, h: Handler, c: Choice)
    ensures var e := HandlerStep(g, n, h, c);
            e.Next? && !(h.pc.UnlockStdin? && h.pc.failure.Some? && !h.pc.failure.value.Unavailable? && !h.pc.failure.value.WriteFailed?) ==>
              && e.g.forwarded == (if !Sent(h.pc) && Sent(e.h.pc) then g.forwarded + [h.body] else g.forwarded)
              && (Sent(h.pc) ==> Sent(e.h.pc))
              && (e.h.pc.UnlockStdin? && e.h.pc.failure.Some? ==> e.h.pc.failure.value.Unavailable? || e.h.pc.failure.value.WriteFailed?)
  {
  }

  /** A write that did not succeed is told as such. */
  predicate FailuresTold(handlers: map<nat, Handler>) {
    forall n :: n in handlers && handlers[n].pc.UnlockStdin? && handlers[n].pc.failure.Some? ==>
      handlers[n].pc.failure.value.Unavailable? || handlers[n].pc.failure.value.WriteFailed?
  }

  lemma StepForwards(s: State, step: Step, order: seq<nat>) returns (order': seq<nat>)
    requires ForwardedBy(s, order) && FailuresTold(s.handlers) && Do(s, step).Some?
    ensures ForwardedBy(Do(s, step).value, order') && FailuresTold(Do(s, step).value.handlers)
  {
    order' := order;
    match step
    case Arrive(n, _, _, _) =>
    case Loop(l, input) => LoopFrame(s, l, input);
    case Handle(n, c) =>
      HandlerSends(s.g, n, s.handlers[n], c);
      HandlerStepFrame(s.g, n, s.handlers[n], c);
      var s' := Do(s, step).value;
      if !Sent(s.handlers[n].pc) && Sent(s'.handlers[n].pc) {
        order' := order + [n];
      }
  }

  lemma {:induction false} RunForwards(s: State, steps: seq<Step>, order: seq<nat>) returns (order': seq<nat>)
    requires ForwardedBy(s, order) && FailuresTold(s.handlers) && Exec(s, steps).Some?
    ensures ForwardedBy(Exec(s, steps).value, order')
    decreases steps
  {
    order' := order;
    if steps != [] {
      order' := StepForwards(s, steps[0], order);
      order' := RunForwards(Do(s, steps[0]).value, steps[1..], order');
    }
  }

  /**
   In every interleaving, the messages forwarded are exactly those of the handlers that were not told of
   a failure and are past their writes, each once; and each is a message that arrived.
   */
  lemma ForwardedIsWhatArrived(steps: seq<Step>) returns (order: seq<nat>)
    requires Exec(INIT, steps).Some?
    ensures ForwardedBy(Exec(INIT, steps).value, order)
    ensures forall i :: 0 <= i < |order| ==>
              exists k :: 0 <= k < |steps| && steps[k].Arrive? && steps[k].n == order[i] && steps[k].body == Exec(INIT, steps).value.g.forwarded[i]
  {
    order := RunForwards(INIT, steps, []);
    forall i | 0 <= i < |order|
      ensures exists k :: 0 <= k < |steps| && steps[k].Arrive? && steps[k].n == order[i] && steps[k].body == Exec(INIT, steps).value.g.forwarded[i]
    {
      var k := HandlersArrived(INIT, steps, order[i]);
    }
  }

  // ----- How a response is delivered -----

  /** What the loop reads, looks up and sends. */
  function Delivery(l: nat, id: string, data: string, i: Input, j: Input): seq<Step> {
    [Loop(l, Response(id, data))] + ([Loop(l, i)] + ([Loop(l, j)] + []))
  }

  /** The state in which handler n has been given the reply, if its channel was empty. */
  function Given(s: State, l: nat, n: nat, r: Reply): State
    requires n in s.handlers
  {
    var h := s.handlers[n];
    State(s.g.(replies := s.g.replies + 1, owner := s.g.owner[r.serial := n]),
          s.handlers[n := h.(hits := h.hits + [r], inbox := if h.inbox == [] then [r] else h.inbox)],
          s.loops[l := Read])
  }

  lemma LoopReads(s: State, l: nat, id: string, data: string)
    requires l in s.loops && s.loops[l].Read?
    ensures Do(s, Loop(l, Response(id, data)))
            == Some(State(s.g.(replies := s.g.replies + 1), s.handlers, s.loops[l := Lookup(Reply(id, s.g.replies, data))]))
  {
  }

  lemma LoopSends(s: State, l: nat, r: Reply, n: nat, input: Input)
    requires l in s.loops && s.loops[l] == Send(r, n) && n in s.handlers
    ensures var h := s.handlers[n];
            Do(s, Loop(l, input)) == Some(State(s.g, s.handlers[n := h.(inbox := if h.inbox == [] then [r] else h.inbox)], s.loops[l := Read]))
  {
  }

  lemma LoopDelivers(s: State, l: nat, id: string, data: string, n: nat, i: Input, j: Input)
    requires l in s.loops && s.loops[l].Read? && id in s.g.pending && s.g.pending[id] == n && n in s.handlers
    ensures Exec(s, Delivery(l, id, data, i, j)) == Some(Given(s, l, n, Reply(id, s.g.replies, data)))
  {
    var r := Reply(id, s.g.replies, data);
    LoopReads(s, l, id, data);
    var s1 := State(s.g.(replies := s.g.replies + 1), s.handlers, s.loops[l := Lookup(r)]);
    LookupHits(s1, l, n);
    var h := s.handlers[n];
    var s2 := State(s1.g.(owner := s.g.owner[r.serial := n]), s.handlers[n := h.(hits := h.hits + [r])], s1.loops[l := Send(r, n)]);
    assert Do(s1, Loop(l, i)) == Some(s2);
    LoopSends(s2, l, r, n, j);
    ThreeSteps(s, Loop(l, Response(id, data)), s1, Loop(l, i), s2, Loop(l, j));
    var s' := Given(s, l, n, r);
    assert Do(s2, Loop(l, j)).value.handlers == s'.handlers;
    assert Do(s2, Loop(l, j)).value.loops == s'.loops;
  }

  lemma ThreeSteps(s: State, a: Step, s1: State, b: Step, s2: State, c: Step)
    requires Do(s, a) == Some(s1) && Do(s1, b) == Some(s2) && Do(s2, c).Some?
    ensures Exec(s, [a] + ([b] + ([c] + []))) == Do(s2, c)
  {
    OneStep(s, a, [b] + ([c] + []));
    OneStep(s1, b, [c] + []);
    OneStep(s2, c, []);
  }

  lemma LoopDrops(s: State, l: nat, id: string, data: string, i: Input)
    requires l in s.loops && s.loops[l].Read? && id !in s.g.pending
    ensures Exec(s, [Loop(l, Response(id, data))] + ([Loop(l, i)] + [])) == Some(s.(g := s.g.(replies := s.g.replies + 1)))
  {
    LoopReads(s, l, id, data);
    OneStep(s, Loop(l, Response(id, data)), [Loop(l, i)] + []);
    var s1 := State(s.g.(replies := s.g.replies + 1), s.handlers, s.loops[l := Lookup(Reply(id, s.g.replies, data))]);
    LookupMisses(s1, l);
    OneStep(s1, Loop(l, i), []);
    assert s1.loops[l := Read] == s.loops;
  }

  /**
   After a run without a clash, a response is delivered by three steps of the loop to the one registered
   request with its id: into its channel if that is empty. Everything else stays as it was. If there is
   no such request, two steps drop the response.
   */
  lemma ResponseIsDelivered(steps: seq<Step>, l: nat, id: string, data: string, i: Input, j: Input)
    requires Exec(INIT, steps).Some? && NeverClashes(INIT, steps)
    requires l in Exec(INIT, steps).value.loops && Exec(INIT, steps).value.loops[l].Read?
    ensures var s := Exec(INIT, steps).value;
            && (forall n :: n in s.handlers && Registered(s.handlers[n]) && s.handlers[n].id == id ==>
                  Exec(s, Delivery(l, id, data, i, j)) == Some(Given(s, l, n, Reply(id, |Heard(INIT, steps)|, data))))
            && ((forall n :: n in s.handlers && Registered(s.handlers[n]) ==> s.handlers[n].id != id) ==>
                  Exec(s, [Loop(l, Response(id, data))] + ([Loop(l, i)] + [])) == Some(s.(g := s.g.(replies := s.g.replies + 1))))
  {
    RunIsExactIff(INIT, steps);
    RunKeepsFrom(INIT, steps, []);
    assert [] + Heard(INIT, steps) == Heard(INIT, steps);
    var s := Exec(INIT, steps).value;
    if id in s.g.pending {
      LoopDelivers(s, l, id, data, s.g.pending[id], i, j);
    } else {
      LoopDrops(s, l, id, data, i);
    }
  }

  // ----- One message undisturbed -----

  /** n moves once. */
  lemma Moves(s: State, n: nat, c: Choice, g: Shared, h: Handler, rest: seq<Step>)
    requires n in s.handlers && (s.handlers[n].pc.EnsureLoop? ==> s.g.started)
    requires HandlerStep(s.g, n, s.handlers[n], c) == Next(g, h)
    ensures Exec(s, [Handle(n, c)] + rest) == Exec(State(g, s.handlers[n := h], s.loops), rest)
  {
    OneStep(s, Handle(n, c), rest);
  }

  /** The state in which handler n is h, the table is pending and so much more has been written. */
  function With(s: State, n: nat, h: Handler, pending: map<string, nat>, lock: Option<nat>, text: string, lines: seq<string>): State {
    State(s.g.(pending := pending, stdinLock := lock, stdin := s.g.stdin + text, forwarded := s.g.forwarded + lines), s.handlers[n := h], s.loops)
  }

  predicate Quiet(s: State, n: nat) { n !in s.handlers && s.g.started && s.g.stdinLock.None? }

  function At(request: bool, id: string, body: string, pc: HandlerPc): Handler { Handler(request, id, body, pc, [], []) }

  /** From arrival to the check of stdin. */
  function Opened(n: nat, request: bool, id: string, body: string): seq<Step> {
    [Arrive(n, request, id, body)] + ([Handle(n, GO)] + ([Handle(n, GO)] + if request then [Handle(n, GO)] + [] else []))
  }

  lemma MessageOpens(s: State, n: nat, request: bool, id: string, body: string)
    requires Quiet(s, n)
    ensures Exec(s, Opened(n, request, id, body))
            == Some(With(s, n, At(request, id, body, CheckStdin), if request then s.g.pending[id := n] else s.g.pending, Some(n), "", []))
  {
    var end := if request then [Handle(n, GO)] + [] else [];
    OneStep(s, Arrive(n, request, id, body), [Handle(n, GO)] + ([Handle(n, GO)] + end));
    var s1 := State(s.g, s.handlers[n := At(request, id, body, EnsureLoop)], s.loops);
    Moves(s1, n, GO, s.g, At(request, id, body, if request then Register else LockStdin), [Handle(n, GO)] + end);
    var s2 := With(s, n, At(request, id, body, if request then Register else LockStdin), s.g.pending, None, "", []);
    assert s.g.stdin + "" == s.g.stdin && s.g.forwarded + [] == s.g.forwarded;
    assert s2.handlers == s1.handlers[n := s2.handlers[n]];
    if request {
      var s3 := With(s, n, At(true, id, body, LockStdin), s.g.pending[id := n], None, "", []);
      Moves(s2, n, GO, s3.g, s3.handlers[n], [Handle(n, GO)] + []);
      assert s3.handlers == s2.handlers[n := s3.handlers[n]];
      LocksStdin(s3, n);
      assert With(s, n, At(true, id, body, CheckStdin), s.g.pending[id := n], Some(n), "", []).handlers == s3.handlers[n := At(true, id, body, CheckStdin)];
    } else {
      LocksStdin(s2, n);
      assert With(s, n, At(false, id, body, CheckStdin), s.g.pending, Some(n), "", []).handlers == s2.handlers[n := At(false, id, body, CheckStdin)];
    }
  }

  lemma LocksStdin(s: State, n: nat)
    requires n in s.handlers && s.handlers[n].pc.LockStdin? && s.g.stdinLock.None?
    ensures Exec(s, [Handle(n, GO)] + []) == Some(State(s.g.(stdinLock := Some(n)), s.handlers[n := s.handlers[n].(pc := CheckStdin)], s.loops))
  {
    OneStep(s, Handle(n, GO), []);
  }

  /** Both writes, and the release of stdin. */
  function Written(n: nat): seq<Step> { [Handle(n, GO)] + ([Handle(n, GO)] + ([Handle(n, GO)] + ([Handle(n, GO)] + []))) }

  lemma MessageIsWritten(s: State, n: nat, request: bool, id: string, body: string)
    requires n in s.handlers && s.handlers[n] == At(request, id, body, CheckStdin)
    ensures Exec(s, Written(n))
            == Some(With(s, n, At(request, id, body, if request then Await else Finished(Accepted)), s.g.pending, None, body + "\n", [body]))
  {
    var g1 := s.g.(stdin := s.g.stdin + body);
    var g2 := g1.(stdin := g1.stdin + "\n", forwarded := g1.forwarded + [body]);
    var last := if request then Await else Finished(Accepted);
    Moves(s, n, GO, s.g, At(request, id, body, WriteBody), [Handle(n, GO)] + ([Handle(n, GO)] + ([Handle(n, GO)] + [])));
    var s1 := State(s.g, s.handlers[n := At(request, id, body, WriteBody)], s.loops);
    Moves(s1, n, GO, g1, At(request, id, body, WriteNewline), [Handle(n, GO)] + ([Handle(n, GO)] + []));
    var s2 := State(g1, s1.handlers[n := At(request, id, body, WriteNewline)], s.loops);
    Moves(s2, n, GO, g2, At(request, id, body, UnlockStdin(None)), [Handle(n, GO)] + []);
    var s3 := State(g2, s2.handlers[n := At(request, id, body, UnlockStdin(None))], s.loops);
    Moves(s3, n, GO, g2.(stdinLock := None), At(request, id, body, last), []);
    assert s.g.stdin + (body + "\n") == s.g.stdin + body + "\n";
    assert s3.handlers[n := At(request, id, body, last)] == s.handlers[n := At(request, id, body, last)];
  }

  /**
   Undisturbed, a message is written whole, with an LF; then a notification is done and a request waits,
   registered under its id. If stdin is not there, nothing is written and no entry is left behind.
   */
  lemma MessageIsForwarded(s: State, n: nat, request: bool, id: string, body: string)
    requires Quiet(s, n)
    ensures var pending := if request then s.g.pending[id := n] else s.g.pending;
            && Exec(s, Opened(n, request, id, body)).Some?
            && var s1 := Exec(s, Opened(n, request, id, body)).value;
               && Exec(s1, Written(n))
                  == Some(With(s, n, At(request, id, body, if request then Await else Finished(Accepted)), pending, None, body + "\n", [body]))
               && Exec(s1, Refused(n, request))
                  == Some(With(s, n, At(request, id, body, Finished(Unavailable)), if request then pending - {id} else pending, None, "", []))
  {
    var pending := if request then s.g.pending[id := n] else s.g.pending;
    MessageOpens(s, n, request, id, body);
    var s1 := With(s, n, At(request, id, body, CheckStdin), pending, Some(n), "", []);
    MessageIsWritten(s1, n, request, id, body);
    MessageIsRefused(s1, n, request, id, body);
    assert s.g.stdin + "" + (body + "\n") == s.g.stdin + (body + "\n") && s.g.forwarded + [] + [body] == s.g.forwarded + [body];
    var last := At(request, id, body, if request then Await else Finished(Accepted));
    assert s1.handlers[n := last] == s.handlers[n := last];
    var refused := At(request, id, body, Finished(Unavailable));
    assert s1.handlers[n := refused] == s.handlers[n := refused];
  }

  /** Stdin is not there. */
  function Refused(n: nat, request: bool): seq<Step> {
    [Handle(n, STOP)] + ([Handle(n, GO)] + if request then [Handle(n, GO)] + [] else [])
  }

  lemma MessageIsRefused(s: State, n: nat, request: bool, id: string, body: string)
    requires n in s.handlers && s.handlers[n] == At(request, id, body, CheckStdin)
    ensures Exec(s, Refused(n, request))
            == Some(State(s.g.(stdinLock := None, pending := if request then s.g.pending - {id} else s.g.pending),
                          s.handlers[n := At(request, id, body, Finished(Unavailable))], s.loops))
  {
    var end := if request then [Handle(n, GO)] + [] else [];
    var failed := At(request, id, body, UnlockStdin(Some(Unavailable)));
    var next := At(request, id, body, if request then Deregister(Unavailable) else Finished(Unavailable));
    Moves(s, n, STOP, s.g, failed, [Handle(n, GO)] + end);
    var s1 := State(s.g, s.handlers[n := failed], s.loops);
    Moves(s1, n, GO, s.g.(stdinLock := None), next, end);
    var s2 := State(s.g.(stdinLock := None), s1.handlers[n := next], s.loops);
    var last := At(request, id, body, Finished(Unavailable));
    if request {
      Moves(s2, n, GO, s2.g.(pending := s.g.pending - {id}), last, []);
    } else {
      assert s2.handlers == s.handlers[n := last];
    }
    assert s2.handlers[n := last] == s.handlers[n := last];
  }

  /** The wait ends as it does, and the entry goes. */
  function Ending(n: nat, arm: Arm): seq<Step> { [Handle(n, Choice(true, 0, arm, 0))] + ([Handle(n, GO)] + []) }

  /** A request that waits reports the response in its channel, or that it has waited too long or was cancelled; in each case its entry goes. */
  lemma WaitEnds(s: State, n: nat, arm: Arm)
    requires n in s.handlers && s.handlers[n].pc.Await? && (arm.OnResponse? ==> s.handlers[n].inbox != [])
    ensures var h := s.handlers[n];
            Exec(s, Ending(n, arm))
            == Some(State(s.g.(pending := s.g.pending - {h.id}),
                          s.handlers[n := match arm
                                          case OnResponse => h.(pc := Finished(Answered(h.inbox[0])), inbox := h.inbox[1..])
                                          case OnTimeout => h.(pc := Finished(TimedOut))
                                          case OnCancel => h.(pc := Finished(Cancelled))],
                          s.loops))
  {
    var h := s.handlers[n];
    var h1 := match arm
      case OnResponse => h.(pc := Deregister(Answered(h.inbox[0])), inbox := h.inbox[1..])
      case OnTimeout => h.(pc := Deregister(TimedOut))
      case OnCancel => h.(pc := Deregister(Cancelled));
    Moves(s, n, Choice(true, 0, arm, 0), s.g, h1, [Handle(n, GO)] + []);
    var s1 := State(s.g, s.handlers[n := h1], s.loops);
    Moves(s1, n, GO, s.g.(pending := s.g.pending - {h.id}), h1.(pc := Finished(h1.pc.result)), []);
    assert s1.handlers[n := h1.(pc := Finished(h1.pc.result))] == s.handlers[n := h1.(pc := Finished(h1.pc.result))];
  }

  /**
   A request that is forwarded undisturbed and whose id a response then carries is answered with that
   response; the subprocess has read the request, and the table is as if it had never been registered.
   */
  lemma RequestIsAnswered(s: State, n: nat, id: string, body: string, l: nat, data: string, i: Input, j: Input)
    requires Quiet(s, n) && l in s.loops && s.loops[l].Read?
    ensures var waiting := With(s, n, At(true, id, body, Await), s.g.pending[id := n], None, body + "\n", [body]);
            var r := Reply(id, s.g.replies, data);
            && Exec(waiting, Delivery(l, id, data, i, j)).Some?
            && var given := Exec(waiting, Delivery(l, id, data, i, j)).value;
               && Exec(given, Ending(n, OnResponse)).Some?
               && var done := Exec(given, Ending(n, OnResponse)).value;
                  && done.handlers == s.handlers[n := Handler(true, id, body, Finished(Answered(r)), [], [r])]
                  && done.g.pending == s.g.pending - {id} && done.g.stdin == s.g.stdin + body + "\n" && done.loops == s.loops
  {
    var waiting := With(s, n, At(true, id, body, Await), s.g.pending[id := n], None, body + "\n", [body]);
    var r := Reply(id, s.g.replies, data);
    LoopDelivers(waiting, l, id, data, n, i, j);
    var given := Given(waiting, l, n, r);
    assert [] + [r] == [r] && [r][1..] == [];
    WaitEnds(given, n, OnResponse);
    assert given.handlers[n := Handler(true, id, body, Finished(Answered(r)), [], [r])] == s.handlers[n := Handler(true, id, body, Finished(Answered(r)), [], [r])];
    assert s.loops[l := Read] == s.loops;
    assert s.g.pending[id := n] - {id} == s.g.pending - {id};
  }

  // ----- What fails -----

  /** A write that fails after so many bytes. */
  function FailedWrite(n: nat, written: nat, request: bool): seq<Step> {
    [Handle(n, Choice(false, written, OnTimeout, 0))] + ([Handle(n, GO)] + if request then [Handle(n, GO)] + [] else [])
  }

  /**
   If a write to the subprocess fails, some prefix of what was to be written is left behind, and that is
   noted; the request or notification has failed, stdin is free again, and the table entry is gone.
   */
  lemma WriteFails(s: State, n: nat, newline: bool, request: bool, id: string, body: string, written: nat)
    requires n in s.handlers && s.handlers[n] == At(request, id, body, if newline then WriteNewline else WriteBody)
    ensures var text := if newline then "\n" else body;
            Exec(s, FailedWrite(n, written, request))
            == Some(State(s.g.(stdinLock := None, pending := if request then s.g.pending - {id} else s.g.pending,
                               stdin := s.g.stdin + text[..Min(written, |text|)], broken := true),
                          s.handlers[n := At(request, id, body, Finished(WriteFailed))], s.loops))
  {
    var text := if newline then "\n" else body;
    var end := if request then [Handle(n, GO)] + [] else [];
    var failed := At(request, id, body, UnlockStdin(Some(WriteFailed)));
    var next := At(request, id, body, if request then Deregister(WriteFailed) else Finished(WriteFailed));
    var last := At(request, id, body, Finished(WriteFailed));
    var g1 := s.g.(stdin := s.g.stdin + text[..Min(written, |text|)], broken := true);
    Moves(s, n, Choice(false, written, OnTimeout, 0), g1, failed, [Handle(n, GO)] + end);
    var s1 := State(g1, s.handlers[n := failed], s.loops);
    Moves(s1, n, GO, g1.(stdinLock := None), next, end);
    var s2 := State(g1.(stdinLock := None), s1.handlers[n := next], s.loops);
    if request {
      Moves(s2, n, GO, s2.g.(pending := s.g.pending - {id}), last, []);
    } else {
      assert s2.handlers == s.handlers[n := last];
    }
    assert s2.handlers[n := last] == s.handlers[n := last];
  }

  /**
   A loop skips what is no response. When it fails to read it is gone, and the flag is clear; the next
   message starts another, which finds stdout.
   */
  lemma FailedLoopIsReplaced(s: State, l: nat, i: Input, n: nat, request: bool, id: string, body: string, later: nat)
    requires s.loops == map[l := Read] && n in s.handlers && s.handlers[n] == At(request, id, body, EnsureLoop)
    ensures Do(s, Loop(l, Other)) == Some(s)
    ensures Exec(s, [Loop(l, Failure)] + ([Loop(l, i)] + [])) == Some(State(s.g.(started := false), s.handlers, map[]))
    ensures var h := At(request, id, body, if request then Register else LockStdin);
            Exec(State(s.g.(started := false), s.handlers, map[]), [Handle(n, Choice(true, 0, OnTimeout, later))] + ([Loop(later, Failure)] + []))
            == Some(State(s.g.(started := true), s.handlers[n := h], map[later := Read]))
  {
    assert s.loops[l := Read] == s.loops;
    OneStep(s, Loop(l, Failure), [Loop(l, i)] + []);
    var s1 := State(s.g, s.handlers, s.loops[l := MarkStopped]);
    OneStep(s1, Loop(l, i), []);
    assert s1.loops - {l} == map[];
    var s2 := State(s.g.(started := false), s.handlers, map[]);
    var h := At(request, id, body, if request then Register else LockStdin);
    OneStep(s2, Handle(n, Choice(true, 0, OnTimeout, later)), [Loop(later, Failure)] + []);
    var s3 := State(s.g.(started := true), s.handlers[n := h], map[later := Boot]);
    assert Do(s2, Handle(n, Choice(true, 0, OnTimeout, later))) == Some(s3);
    OneStep(s3, Loop(later, Failure), []);
    assert s3.loops[later := Read] == map[later := Read];
  }
}
