/**
 What the client of internal/client/client.go does with a message, over the transport of
 internal/client/transport.go, as functions of a record of everything that has happened. What the
 network, the contexts, authentication and stdout do is fixed by oracles, indexed by how often they
 have been asked.
 */
module ClientModel {
  import opened Common
  import opened Backoff

  datatype Cause = Canceled | Deadline | Other

  /** An HTTP response; body is None when reading it fails, with the given cause. */
  datatype Response = Response(status: int, session: string, body: Option<string>, cause: Cause)

  /** What httpClient.Do does: fail, or answer. */
  datatype Outcome = Failed(cause: Cause) | Responded(resp: Response)

  /** A request body and session id, as the server sees them or as Send was called with them. */
  datatype Attempt = Attempt(body: string, session: string)

  datatype Error =
    | TransportClosed | AuthFailed(cause: Cause) | RequestCancelled | AttemptsFailed(cause: Cause) | NoAttempt
    | ContextDone(cause: Cause) | Http(status: int) | BodyUnreadable(cause: Cause)
    | RetriesOff | RetriesExceeded | StdoutFailed

  datatype Result<T> = Ok(value: T) | Err(error: Error)

  datatype Delivered = Delivered(body: string, session: string)

  /**
   The oracles: the outcome of each exchange, how each wait of the transport and of the client ends,
   whether each Send can be authenticated, which messages are notifications, and how many bytes of
   each write stdout accepts.
   */
  datatype Env = Env(
    retry: Retry,
    net: nat -> Outcome,
    sendContext: nat -> Option<Cause>,
    retryContext: nat -> Option<Cause>,
    auth: nat -> Option<Cause>,
    isNotification: string -> bool,
    room: nat -> nat)

  function Net(e: Env, n: nat): Outcome { e.net(n) }
  function SendContext(e: Env, n: nat): Option<Cause> { e.sendContext(n) }
  function RetryContext(e: Env, n: nat): Option<Cause> { e.retryContext(n) }
  function Auth(e: Env, n: nat): Option<Cause> { e.auth(n) }
  predicate IsNotification(e: Env, msg: string) { e.isNotification(msg) }
  function Room(e: Env, n: nat): nat { e.room(n) }

  /**
   The record: attempts on the wire, calls of Send, waits of the transport, waits of the client, the
   session id, the messages written to stdout in full, the bytes on stdout, whether a write was cut
   short after its first byte, and the number of writes.
   */
  datatype Record = Record(
    sent: seq<Attempt>, sends: seq<Attempt>, slept: seq<int>, waited: seq<int>,
    session: string, lines: seq<string>, out: string, torn: bool, writes: nat)

  const FRESH := Record([], [], [], [], "", [], "", false, 0)

  /** Whether errors.Is finds a context error: then the client stops. */
  predicate Fatal(e: Error) {
    (e.AuthFailed? || e.AttemptsFailed? || e.ContextDone? || e.BodyUnreadable?) && !e.cause.Other?
  }

  predicate SessionExpired(e: Error) { e.Http? && (e.status == 404 || e.status == 410) }

  // ----- One Send -----

  function MaxAttempts(retry: Retry): int { if retry.enabled then retry.maxRetries + 1 else 1 }

  predicate ShouldRetry(cause: Cause) { cause.Other? }

  function GaveUp(cause: Cause): Error { if cause.Canceled? then RequestCancelled else AttemptsFailed(cause) }

  /** The number of attempts, the waits between them, and what came of them. */
  datatype Tries = Tries(k: nat, slept: seq<int>, result: Result<Response>)

  /** The retry loop of the transport with so many attempts left and the given next wait, from the n-th exchange and the v-th wait on. */
  function TryFrom(e: Env, left: nat, n: nat, v: nat, delay: int): Tries
    requires left >= 1
  {
    match Net(e, n)
    case Responded(resp) => Tries(1, [], Ok(resp))
    case Failed(cause) =>
      if !ShouldRetry(cause) || left == 1 then Tries(1, [], Err(GaveUp(cause)))
      else if SendContext(e, v).Some? then Tries(1, [delay], Err(ContextDone(SendContext(e, v).value)))
      else
        var t := TryFrom(e, left - 1, n + 1, v + 1, NextDelay(e.retry, delay));
        Tries(1 + t.k, [delay] + t.slept, t.result)
  }

  function Try(e: Env, n: nat, v: nat): Tries {
    if MaxAttempts(e.retry) < 1 then Tries(0, [], Err(NoAttempt)) else TryFrom(e, MaxAttempts(e.retry), n, v, e.retry.initialDelay)
  }

  function ReadResponse(o: Result<Response>): Result<Delivered> {
    match o
    case Err(e) => Err(e)
    case Ok(resp) =>
      if resp.status < 200 || resp.status >= 300 then Err(Http(resp.status))
      else if resp.body.None? then Err(BodyUnreadable(resp.cause))
      else Ok(Delivered(resp.body.value, resp.session))
  }

  datatype Sending = Sending(k: nat, slept: seq<int>, result: Result<Delivered>)

  /** What the i-th Send does, from the n-th exchange and the v-th wait on. */
  function SendingFrom(e: Env, closed: bool, i: nat, n: nat, v: nat): Sending {
    if closed then Sending(0, [], Err(TransportClosed))
    else if Auth(e, i).Some? then Sending(0, [], Err(AuthFailed(Auth(e, i).value)))
    else
      var t := Try(e, n, v);
      Sending(t.k, t.slept, ReadResponse(t.result))
  }

  function Send(e: Env, closed: bool, r: Record, msg: string, session: string): (Record, Result<Delivered>) {
    var s := SendingFrom(e, closed, |r.sends|, |r.sent|, |r.slept|);
    (r.(sends := r.sends + [Attempt(msg, session)],
        sent := r.sent + Repeat(Attempt(msg, session), s.k),
        slept := r.slept + s.slept),
     s.result)
  }

  // ----- One message -----

  /** The bytes that writing one message puts on stdout. */
  function Written(body: string): string {
    if body == "" || body[|body| - 1] != '\n' then body + "\n" else body
  }

  /** WriteMessage; a write that stdout cuts short leaves a part of the line behind. */
  function Write(e: Env, r: Record, body: string): (Record, bool) {
    var chunk, room := Written(body), Room(e, r.writes);
    if room >= |chunk| then (r.(lines := r.lines + [body], out := r.out + chunk, writes := r.writes + 1), true)
    else (r.(out := r.out + chunk[..room], torn := r.torn || room > 0, writes := r.writes + 1), false)
  }

  /** A delivered message sets the session id and answers, unless it is a notification or there is no body. */
  function Accept(e: Env, r: Record, msg: string, d: Delivered): (Record, Option<Error>) {
    var r' := r.(session := if d.session != "" then d.session else r.session);
    if IsNotification(e, msg) || d.body == "" then (r', None)
    else
      var (r'', ok) := Write(e, r', d.body);
      (r'', if ok then None else Some(StdoutFailed))
  }

  function Wait(r: Record, delay: int): Record { r.(waited := r.waited + [delay]) }

  /** retryMessage with so many retries left and the given next wait. */
  function RetryFrom(e: Env, closed: bool, r: Record, msg: string, session: string, left: nat, delay: int): (Record, Option<Error>)
    decreases left
  {
    if left == 0 then (r, Some(RetriesExceeded))
    else
      var r' := Wait(r, delay);
      var context := RetryContext(e, |r.waited|);
      if context.Some? then (r', Some(ContextDone(context.value)))
      else
        var (r'', result) := Send(e, closed, r', msg, session);
        match result
        case Ok(d) => Accept(e, r'', msg, d)
        case Err(_) => RetryFrom(e, closed, r'', msg, session, left - 1, NextDelay(e.retry, delay))
  }

  function Retries(retry: Retry): nat { if retry.enabled then Max(0, retry.maxRetries) else 0 }

  /** The record after the first Send has failed: an expired session is dropped. */
  function AfterFailure(r: Record, err: Error): Record { if SessionExpired(err) then r.(session := "") else r }

  function HandleError(e: Env, closed: bool, r: Record, msg: string, err: Error): (Record, Option<Error>) {
    var r' := AfterFailure(r, err);
    if e.retry.enabled then RetryFrom(e, closed, r', msg, r'.session, Retries(e.retry), e.retry.initialDelay)
    else (r', Some(if SessionExpired(err) then RetriesOff else err))
  }

  function Handle(e: Env, closed: bool, r: Record, msg: string): (Record, Option<Error>) {
    var (r', result) := Send(e, closed, r, msg, r.session);
    match result
    case Ok(d) => Accept(e, r', msg, d)
    case Err(err) => HandleError(e, closed, r', msg, err)
  }

  // ----- A whole run -----

  datatype Run = Run(r: Record, e: Option<Error>, handled: nat)

  /** The messages of stdin from the i-th on; stop says whether the context is found done before each. */
  function RunFrom(e: Env, closed: bool, r: Record, messages: seq<string>, stop: nat -> Option<Cause>, i: nat): Run
    requires i <= |messages|
    decreases |messages| - i
  {
    if stop(i).Some? then Run(r, Some(ContextDone(stop(i).value)), i)
    else if i == |messages| then Run(r, None, i)
    else
      var (r', err) := Handle(e, closed, r, messages[i]);
      if err.Some? && Fatal(err.value) then Run(r', err, i + 1) else RunFrom(e, closed, r', messages, stop, i + 1)
  }
}
