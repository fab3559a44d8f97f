/**
 The client of internal/client/client.go and the transport of internal/client/transport.go, statement
 by statement. Each method is proved to do what the functions of module ClientModel say.
 */
module ClientRetry {
  import opened Common
  import opened Backoff
  import opened ClientModel

  /** An http.Request: unread is what is left to read of its body. */
  class Request {
    const session: string
    var unread: string

    constructor (body: string, session: string)
      ensures unread == body && this.session == session
    {
      unread := body;
      this.session := session;
    }

    /** io.ReadAll on the body. */
    method ReadAll() returns (body: string)
      modifies this`unread
      ensures body == old(unread) && unread == ""
    {
      body := unread;
      unread := "";
    }
  }

  class Transport {
    const env: Env
    const leftOver: nat -> nat
    var closed: bool
    var sends: seq<Attempt>
    var sent: seq<Attempt>
    var slept: seq<int>

    /** leftOver says how much of the body each exchange leaves unread. */
    constructor (env: Env, leftOver: nat -> nat)
      ensures this.env == env && this.leftOver == leftOver
      ensures !closed && sends == [] && sent == [] && slept == []
    {
      this.env, this.leftOver := env, leftOver;
      closed, sends, sent, slept := false, [], [], [];
    }

    /** One exchange: the server sees what is left of the body; some of it is read even if the exchange fails. */
    method Exchange(req: Request) returns (o: Outcome)
      modifies this`sent, req`unread
      ensures sent == old(sent) + [Attempt(old(req.unread), req.session)] && o == Net(env, |old(sent)|)
    {
      o := Net(env, |sent|);
      var left := leftOver(|sent|);
      sent := sent + [Attempt(req.unread, req.session)];
      req.unread := if left <= |req.unread| then req.unread[|req.unread| - left..] else req.unread;
    }

    /** select on the context and a timer. */
    method Sleep(delay: int) returns (done: Option<Cause>)
      modifies this`slept
      ensures slept == old(slept) + [delay] && done == SendContext(env, |old(slept)|)
    {
      done := SendContext(env, |slept|);
      slept := slept + [delay];
    }

    /**
     One round of the retry loop. The attempt carries the whole body, because the body is cloned before
     it and restored after it.
     */
    method TryOnce(req: Request, last: bool, delay: int, ghost sent0: seq<Attempt>, ghost done: nat)
      returns (over: bool, r: Result<Response>)
      requires Logged(Attempt(req.unread, req.session), sent0, sent, done)
      modifies this`sent, this`slept, req`unread
      ensures Logged(Attempt(old(req.unread), req.session), sent0, sent, done + 1)
      ensures var o := Net(env, |sent0| + done);
              var goesOn := o.Failed? && ShouldRetry(o.cause) && !last;
              var context := SendContext(env, |old(slept)|);
              && slept == (if goesOn then old(slept) + [delay] else old(slept))
              && over == !(goesOn && context.None?)
              && r == (if o.Responded? then Ok(o.resp)
                       else if goesOn && context.Some? then Err(ContextDone(context.value)) else Err(GaveUp(o.cause)))
      ensures !over ==> req.unread == old(req.unread)
    {
      var body := req.ReadAll();
      req.unread := body;
      var bodyClone := body;
      OneMoreAttempt(Attempt(body, req.session), sent0, sent, done);
      var o := Exchange(req);
      if o.Responded? {
        return true, Ok(o.resp);
      }
      r := Err(GaveUp(o.cause));
      if !ShouldRetry(o.cause) || last {
        return true, r;
      }
      req.unread := bodyClone;
      var context := Sleep(delay);
      if context.Some? {
        return true, Err(ContextDone(context.value));
      }
      over := false;
    }

    method DoWithRetry(req: Request) returns (r: Result<Response>, ghost t: Tries)
      modifies this`sent, this`slept, req`unread
      ensures t == Try(env, |old(sent)|, |old(slept)|) && r == t.result
      ensures Logged(Attempt(old(req.unread), req.session), old(sent), sent, t.k) && slept == old(slept) + t.slept
    {
      var maxAttempts := MaxAttempts(env.retry);
      var delay := env.retry.initialDelay;
      var attempt := 1;
      t := Try(env, |sent|, |slept|);
      ghost var sent0, slept0, done, n := sent, slept, 0, |sent|;
      NoneYet(Attempt(req.unread, req.session), sent, slept);
      r := Err(NoAttempt);
      if maxAttempts < 1 {
        return;
      }
      ghost var left: nat := maxAttempts;
      NothingBefore(t, slept);
      while attempt <= maxAttempts
        invariant 1 <= attempt <= maxAttempts && done == attempt - 1 && left == maxAttempts - done
        invariant req.unread == old(req.unread) && n == |sent0| + done
        invariant Logged(Attempt(req.unread, req.session), sent0, sent, done)
        invariant Comes(t, done, slept0, slept, TryFrom(env, left, n, |slept|, delay))
        decreases left
      {
        NextTry(env, left, n, delay, t, done, slept0, slept);
        var over;
        over, r := TryOnce(req, attempt == maxAttempts, delay, sent0, done);
        if over {
          return;
        }
        done, left, n := done + 1, left - 1, n + 1;
        delay := NextDelay(env.retry, delay);
        attempt := attempt + 1;
      }
    }

    /** Send posts one message; only a 2xx response that can be read is a success. */
    method Send(msg: string, session: string) returns (r: Result<Delivered>)
      modifies this`sent, this`slept, this`sends
      ensures var s := SendingFrom(env, closed, |old(sends)|, |old(sent)|, |old(slept)|);
              && r == s.result
              && sends == old(sends) + [Attempt(msg, session)]
              && sent == old(sent) + Repeat(Attempt(msg, session), s.k)
              && slept == old(slept) + s.slept
    {
      NoneYet(Attempt(msg, session), sent, slept);
      sends := sends + [Attempt(msg, session)];
      if closed {
        return Err(TransportClosed);
      }
      var req := new Request(msg, session);
      var failure := Auth(env, |sends| - 1);
      if failure.Some? {
        return Err(AuthFailed(failure.value));
      }
      var o;
      ghost var t;
      o, t := DoWithRetry(req);
      r := ReadResponse(o);
    }
  }

  predicate Logged(a: Attempt, before: seq<Attempt>, after: seq<Attempt>, k: nat) { after == before + Repeat(a, k) }

  /** The whole of t is the attempts done, the waits between before and now, and what rest adds. */
  predicate Comes(t: Tries, done: nat, before: seq<int>, now: seq<int>, rest: Tries) {
    t.k == done + rest.k && before + t.slept == now + rest.slept && t.result == rest.result
  }

  /** How the next attempt ends the loop, or goes on. */
  lemma NextTry(e: Env, left: nat, n: nat, delay: int, t: Tries, done: nat, before: seq<int>, now: seq<int>)
    requires left >= 1 && Comes(t, done, before, now, TryFrom(e, left, n, |now|, delay))
    ensures var o, context := Net(e, n), SendContext(e, |now|);
            if o.Responded? then t.k == done + 1 && before + t.slept == now && t.result == Ok(o.resp)
            else if !ShouldRetry(o.cause) || left == 1 then t.k == done + 1 && before + t.slept == now && t.result == Err(GaveUp(o.cause))
            else if context.Some? then t.k == done + 1 && before + t.slept == now + [delay] && t.result == Err(ContextDone(context.value))
            else Comes(t, done + 1, before, now + [delay], TryFrom(e, left - 1, n + 1, |now + [delay]|, NextDelay(e.retry, delay)))
  {
    assert now + [] == now;
    if left > 1 {
      var rest := TryFrom(e, left - 1, n + 1, |now| + 1, NextDelay(e.retry, delay));
      assert now + ([delay] + rest.slept) == (now + [delay]) + rest.slept;
    }
  }

  lemma NothingBefore(t: Tries, slept: seq<int>)
    ensures Comes(t, 0, slept, slept, t)
  {
  }

  lemma NoneYet(a: Attempt, sent: seq<Attempt>, slept: seq<int>)
    ensures Logged(a, sent, sent, 0) && slept + [] == slept
  {
  }

  lemma OneMoreAttempt(a: Attempt, before: seq<Attempt>, after: seq<Attempt>, k: nat)
    requires Logged(a, before, after, k)
    ensures |after| == |before| + k && Logged(a, before, after + [a], k + 1)
  {
  }

  class Client {
    const transport: Transport
    var sessionID: string
    var waited: seq<int>
    var lines: seq<string>
    var stdout: string
    var torn: bool
    var writes: nat

    constructor (transport: Transport)
      ensures this.transport == transport
      ensures sessionID == "" && waited == [] && lines == [] && stdout == "" && !torn && writes == 0
    {
      this.transport := transport;
      sessionID, waited, lines, stdout, torn, writes := "", [], [], "", false, 0;
    }

    function View(): Record
      reads this, transport
    {
      Record(transport.sent, transport.sends, transport.slept, waited, sessionID, lines, stdout, torn, writes)
    }

    method WriteMessage(body: string) returns (ok: bool)
      modifies this`writes, this`lines, this`stdout, this`torn
      ensures (View(), ok) == Write(transport.env, old(View()), body)
      ensures var chunk, room := body + (if body != "" && body[|body| - 1] == '\n' then "" else "\n"), transport.env.room(old(writes));
              && writes == old(writes) + 1 && ok == (room >= |chunk|)
              && stdout == old(stdout) + chunk[..if ok then |chunk| else room]
              && lines == (if ok then old(lines) + [body] else old(lines)) && torn == (old(torn) || (!ok && room > 0))
    {
      var chunk, room := Written(body), Room(transport.env, writes);
      writes := writes + 1;
      ok := room >= |chunk|;
      if ok {
        stdout, lines := stdout + chunk, lines + [body];
      } else {
        stdout, torn := stdout + chunk[..room], torn || room > 0;
      }
    }

    method Sleep(delay: int) returns (done: Option<Cause>)
      modifies this`waited
      ensures View() == old(View()).(waited := old(waited) + [delay]) && done == RetryContext(transport.env, |old(waited)|)
    {
      done := RetryContext(transport.env, |waited|);
      waited := waited + [delay];
    }

    /** What follows a Send that has delivered; notifications get no answer. */
    method Accept(msg: string, d: Delivered) returns (e: Option<Error>)
      modifies this`sessionID, this`writes, this`lines, this`stdout, this`torn
      ensures (View(), e) == ClientModel.Accept(transport.env, old(View()), msg, d)
    {
      if d.session != "" {
        sessionID := d.session;
      }
      if IsNotification(transport.env, msg) {
        return None;
      }
      if |d.body| > 0 {
        var ok := WriteMessage(d.body);
        if !ok {
          return Some(StdoutFailed);
        }
      }
      e := None;
    }

    /** Retries a message that has failed, under a fixed session. */
    method RetryMessage(msg: string, session: string) returns (e: Option<Error>)
      modifies this`sessionID, this`writes, this`lines, this`stdout, this`torn, this`waited
      modifies transport`sent, transport`slept, transport`sends
      ensures var env := transport.env;
              (View(), e) == if env.retry.enabled then RetryFrom(env, transport.closed, old(View()), msg, session, Retries(env.retry), env.retry.initialDelay)
                             else (old(View()), Some(RetriesOff))
    {
      var retry := transport.env.retry;
      if !retry.enabled {
        return Some(RetriesOff);
      }
      var delay := retry.initialDelay;
      ghost var goal := RetryFrom(transport.env, transport.closed, View(), msg, session, Retries(retry), delay);
      var attempt := 1;
      while attempt <= retry.maxRetries
        invariant 1 <= attempt && (attempt == 1 || attempt <= retry.maxRetries + 1)
        invariant goal == RetryFrom(transport.env, transport.closed, View(), msg, session, Retries(retry) - (attempt - 1), delay)
      {
        var done := Sleep(delay);
        if done.Some? {
          return Some(ContextDone(done.value));
        }
        var result := transport.Send(msg, session);
        if result.Ok? {
          e := Accept(msg, result.value);
          return;
        }
        delay := NextDelay(retry, delay);
        attempt := attempt + 1;
      }
      e := Some(RetriesExceeded);
    }

    /** After the first Send has failed: an expired session is dropped; then retry, if that is enabled. */
    method HandleSendError(msg: string, err: Error) returns (e: Option<Error>)
      modifies this`sessionID, this`writes, this`lines, this`stdout, this`torn, this`waited
      modifies transport`sent, transport`slept, transport`sends
      ensures (View(), e) == HandleError(transport.env, transport.closed, old(View()), msg, err)
    {
      if SessionExpired(err) {
        sessionID := "";
        e := RetryMessage(msg, "");
        return;
      }
      if !transport.env.retry.enabled {
        return Some(err);
      }
      e := RetryMessage(msg, sessionID);
    }

    /** One message from stdin. */
    method HandleMessage(msg: string) returns (e: Option<Error>)
      modifies this`sessionID, this`writes, this`lines, this`stdout, this`torn, this`waited
      modifies transport`sent, transport`slept, transport`sends
      ensures (View(), e) == Handle(transport.env, transport.closed, old(View()), msg)
    {
      var result := transport.Send(msg, sessionID);
      if result.Err? {
        e := HandleSendError(msg, result.error);
      } else {
        e := Accept(msg, result.value);
      }
    }

    /** Reads stdin message by message, until it ends, the context is done or an error says that it is. */
    method Run(messages: seq<string>, stop: nat -> Option<Cause>) returns (e: Option<Error>, handled: nat)
      modifies this`sessionID, this`writes, this`lines, this`stdout, this`torn, this`waited
      modifies transport`sent, transport`slept, transport`sends
      ensures ClientModel.Run(View(), e, handled) == RunFrom(transport.env, transport.closed, old(View()), messages, stop, 0)
    {
      ghost var goal := RunFrom(transport.env, transport.closed, View(), messages, stop, 0);
      handled := 0;
      while true
        invariant handled <= |messages|
        invariant goal == RunFrom(transport.env, transport.closed, View(), messages, stop, handled)
        decreases |messages| - handled
      {
        var done := stop(handled);
        if done.Some? {
          return Some(ContextDone(done.value)), handled;
        }
        if handled == |messages| {
          return None, handled;
        }
        e := HandleMessage(messages[handled]);
        handled := handled + 1;
        if e.Some? && Fatal(e.value) {
          return;
        }
      }
    }
  }
}
