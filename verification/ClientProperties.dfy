/** What the client promises about a message and about a run, proved of the functions of ClientModel. */
module ClientProperties {
  import opened Common
  import opened Backoff
  import opened ClientModel

  // ----- One Send -----

  predicate Success(o: Outcome) { o.Responded? && 200 <= o.resp.status < 300 && o.resp.body.Some? }

  predicate Expired(o: Outcome) { o.Responded? && (o.resp.status == 404 || o.resp.status == 410) }

  /** How many attempts a Send may make. */
  function Allowed(retry: Retry): nat { if retry.enabled then Max(0, retry.maxRetries + 1) else 1 }

  /** How often a message may be sent again. */
  function AllowedAgain(retry: Retry): nat { if retry.enabled then Max(0, retry.maxRetries) else 0 }

  /**
   What the attempts and waits from the n-th exchange and the v-th wait on have to do with the result:
   all but the last attempt failed for a reason that is retried, with the context live at the waits in
   between, and the last one decides. The waits follow the schedule.
   */
  ghost predicate Exchanged(e: Env, left: nat, n: nat, v: nat, delay: int, t: Tries) {
    && 1 <= t.k <= left
    && (forall i :: n <= i < n + t.k - 1 ==> Net(e, i) == Failed(Other))
    && (forall i :: v <= i < v + t.k - 1 ==> SendContext(e, i).None?)
    && t.slept == Schedule(e.retry, delay, |t.slept|)
    && var last, context := Net(e, n + t.k - 1), SendContext(e, v + t.k - 1);
       if last.Responded? then |t.slept| == t.k - 1 && t.result == Ok(last.resp)
       else if !last.cause.Other? || t.k == left then |t.slept| == t.k - 1 && t.result == Err(if last.cause.Canceled? then RequestCancelled else AttemptsFailed(last.cause))
       else |t.slept| == t.k && context.Some? && t.result == Err(ContextDone(context.value))
  }

  lemma {:induction false} TryIsExchanged(e: Env, left: nat, n: nat, v: nat, delay: int)
    requires left >= 1
    ensures Exchanged(e, left, n, v, delay, TryFrom(e, left, n, v, delay))
    decreases left
  {
    var o := Net(e, n);
    if o.Failed? && o.cause.Other? && left > 1 && SendContext(e, v).None? {
      TryIsExchanged(e, left - 1, n + 1, v + 1, NextDelay(e.retry, delay));
    }
  }

  /** Nothing else fits. */
  lemma {:induction false} ExchangedIsTry(e: Env, left: nat, n: nat, v: nat, delay: int, t: Tries)
    requires left >= 1 && Exchanged(e, left, n, v, delay, t)
    ensures t == TryFrom(e, left, n, v, delay)
    decreases left
  {
    if t.k > 1 {
      assert Net(e, n) == Failed(Other) && SendContext(e, v).None?;
      var rest := t.slept[1..];
      assert t.slept == [delay] + rest && rest == Schedule(e.retry, NextDelay(e.retry, delay), |rest|);
      ExchangedIsTry(e, left - 1, n + 1, v + 1, NextDelay(e.retry, delay), Tries(t.k - 1, rest, t.result));
    }
  }

  /**
   The transport's loop makes exactly the attempts described by Exchanged, within MaxRetries + 1; in
   particular any response ends it, whatever its status.
   */
  lemma TryIff(e: Env, n: nat, v: nat, t: Tries)
    ensures t == Try(e, n, v) <==>
              if Allowed(e.retry) == 0 then t == Tries(0, [], Err(NoAttempt))
              else Exchanged(e, Allowed(e.retry), n, v, e.retry.initialDelay, t)
  {
    if MaxAttempts(e.retry) >= 1 {
      TryIsExchanged(e, MaxAttempts(e.retry), n, v, e.retry.initialDelay);
      if Exchanged(e, MaxAttempts(e.retry), n, v, e.retry.initialDelay, t) {
        ExchangedIsTry(e, MaxAttempts(e.retry), n, v, e.retry.initialDelay, t);
      }
    }
  }

  /** The transport is open, every Send can be authenticated, and the configuration allows an attempt. */
  ghost predicate Usable(e: Env, closed: bool) {
    !closed && Allowed(e.retry) >= 1 && forall i :: Auth(e, i).None?
  }

  /** Nothing answers, but nothing else stops the client either. */
  ghost predicate AllDown(e: Env, closed: bool) {
    && !closed && (forall i :: Auth(e, i).None?)
    && (forall i :: Net(e, i) == Failed(Other)) && (forall i :: SendContext(e, i).None?) && (forall i :: RetryContext(e, i).None?)
  }

  /** A Send makes an attempt if and only if the transport is open, it is authenticated and one is allowed; the last exchange decides. */
  lemma SendFacts(e: Env, closed: bool, i: nat, n: nat, v: nat)
    ensures var s := SendingFrom(e, closed, i, n, v);
            && s.k <= Allowed(e.retry) && |s.slept| <= Max(0, Allowed(e.retry) - 1) && s.slept == Schedule(e.retry, e.retry.initialDelay, |s.slept|)
            && (s.k >= 1 <==> !closed && Auth(e, i).None? && Allowed(e.retry) >= 1)
            && (s.result.Ok? <==> s.k >= 1 && Success(Net(e, n + s.k - 1)))
            && (s.result.Ok? ==> var resp := Net(e, n + s.k - 1).resp; s.result.value == Delivered(resp.body.value, resp.session))
            && (s.result.Err? ==> !s.result.error.StdoutFailed?)
            && (s.result.Err? && SessionExpired(s.result.error) <==> s.k >= 1 && Expired(Net(e, n + s.k - 1)))
            && (closed ==> s.result == Err(TransportClosed))
            && (!closed && Auth(e, i).Some? ==> s.result == Err(AuthFailed(Auth(e, i).value)))
            && (s.k >= 1 && Net(e, n + s.k - 1).Responded? ==>
                  var resp := Net(e, n + s.k - 1).resp;
                  if !(200 <= resp.status < 300) then s.result == Err(Http(resp.status))
                  else resp.body.None? ==> s.result == Err(BodyUnreadable(resp.cause)))
  {
    if MaxAttempts(e.retry) >= 1 {
      TryIsExchanged(e, MaxAttempts(e.retry), n, v, e.retry.initialDelay);
    }
  }

  /** When nothing answers, a Send makes all the attempts it may. */
  lemma DownUsesAll(e: Env, i: nat, n: nat, v: nat)
    requires AllDown(e, false)
    ensures var s := SendingFrom(e, false, i, n, v);
            s.k == Allowed(e.retry) && s.result.Err? && !SessionExpired(s.result.error)
  {
    if MaxAttempts(e.retry) >= 1 {
      TryIsExchanged(e, MaxAttempts(e.retry), n, v, e.retry.initialDelay);
    }
  }

  // ----- Budgets -----

  /** The budget of one message: attempts, and time asleep. */
  function AttemptBudget(retry: Retry): nat {
    if retry.enabled then Max(0, retry.maxRetries + 1) * Max(0, retry.maxRetries + 1) else 1
  }

  function SleepBudget(retry: Retry): int { (retry.maxRetries + 2) * Allowance(retry) }

  /** After m Sends with retries on: k attempts have been made and the transport has slept that long. */
  ghost predicate Within(retry: Retry, m: int, k: int, slept: int) {
    && 0 <= k <= m * Max(0, retry.maxRetries + 1)
    && (Sane(retry) && 1 <= retry.maxRetries ==> 0 <= slept <= m * Allowance(retry))
  }

  lemma NothingSpent(retry: Retry)
    ensures Within(retry, 0, 0, 0)
  {
  }

  lemma OneSend(retry: Retry, k: nat, slept: seq<int>)
    requires retry.enabled && k <= Allowed(retry) && |slept| <= Max(0, Allowed(retry) - 1)
    requires slept == Schedule(retry, retry.initialDelay, |slept|)
    ensures Within(retry, 1, k, Sum(slept))
  {
    ScheduleIsDelays(retry, |slept|);
    if Sane(retry) && 1 <= retry.maxRetries {
      LoopSleepsWithin(retry, |slept|);
    }
  }

  lemma MoreSends(retry: Retry, a: nat, k: int, slept: int, b: nat, k': int, slept': int)
    requires Within(retry, a, k, slept) && Within(retry, b, k', slept')
    ensures Within(retry, a + b, k + k', slept + slept')
  {
    Distributes(a, b, Max(0, retry.maxRetries + 1));
    Distributes(a, b, Allowance(retry));
  }

  lemma Distributes(a: int, b: int, c: int)
    ensures (a + b) * c == a * c + b * c
  {
  }

  // ----- The client's retries -----

  lemma RepeatAdds(a: Attempt, m: nat, n: nat)
    ensures Repeat(a, m) + Repeat(a, n) == Repeat(a, m + n)
  {
  }

  lemma AcceptKeepsLogs(e: Env, r: Record, msg: string, d: Delivered)
    ensures var r' := Accept(e, r, msg, d).0;
            r'.sent == r.sent && r'.sends == r.sends && r'.slept == r.slept && r'.waited == r.waited
  {
  }

  /** r' is r after m Sends of a, with k attempts, and c waits of the client. */
  ghost predicate Grown(e: Env, r: Record, r': Record, a: Attempt, m: nat, k: nat, c: nat, delay: int) {
    && r'.sends == r.sends + Repeat(a, m) && r'.sent == r.sent + Repeat(a, k)
    && r'.waited == r.waited + Schedule(e.retry, delay, c)
    && (e.retry.enabled ==> Within(e.retry, m, k, Sum(r'.slept) - Sum(r.slept)))
  }

  lemma SendGrows(e: Env, closed: bool, r: Record, msg: string, session: string, delay: int) returns (k: nat)
    ensures Grown(e, r, Send(e, closed, r, msg, session).0, Attempt(msg, session), 1, k, 0, delay)
    ensures k <= Allowed(e.retry) && (Usable(e, closed) ==> k >= 1)
    ensures AllDown(e, closed) ==> k == Allowed(e.retry) && Send(e, closed, r, msg, session).1.Err?
  {
    var s := SendingFrom(e, closed, |r.sends|, |r.sent|, |r.slept|);
    SendFacts(e, closed, |r.sends|, |r.sent|, |r.slept|);
    k := s.k;
    SumOfConcat(r.slept, s.slept);
    if e.retry.enabled {
      OneSend(e.retry, k, s.slept);
    }
    if AllDown(e, closed) {
      DownUsesAll(e, |r.sends|, |r.sent|, |r.slept|);
    }
    assert r.waited + [] == r.waited;
    assert Repeat(Attempt(msg, session), 1) == [Attempt(msg, session)];
  }

  lemma GrowthAdds(e: Env, r: Record, r1: Record, r2: Record, a: Attempt, m1: nat, k1: nat, m2: nat, k2: nat, c: nat, delay: int, next: int)
    requires Grown(e, Wait(r, delay), r1, a, m1, k1, 0, next) && Grown(e, r1, r2, a, m2, k2, c, next) && next == NextDelay(e.retry, delay)
    ensures Grown(e, r, r2, a, m1 + m2, k1 + k2, c + 1, delay)
  {
    RepeatAdds(a, m1, m2);
    RepeatAdds(a, k1, k2);
    Chain(r.sends, Repeat(a, m1), Repeat(a, m2));
    Chain(r.sent, Repeat(a, k1), Repeat(a, k2));
    Chain(r.waited, [delay], Schedule(e.retry, next, c));
    assert r1.waited == r.waited + [delay];
    if e.retry.enabled {
      MoreSends(e.retry, m1, k1, Sum(r1.slept) - Sum(r.slept), m2, k2, Sum(r2.slept) - Sum(r1.slept));
    }
  }

  lemma Chain<T>(s: seq<T>, a: seq<T>, b: seq<T>)
    ensures (s + a) + b == s + (a + b)
  {
  }

  lemma NoGrowth(e: Env, r: Record, a: Attempt, delay: int)
    ensures Grown(e, r, r, a, 0, 0, 0, delay)
  {
    assert r.sends + [] == r.sends && r.sent + [] == r.sent && r.waited + [] == r.waited;
    assert Repeat(a, 0) == [];
  }

  /** The retries make at most so many Sends and waits, all alike; the first one is made if and only if the context is live at its wait. */
  lemma {:induction false} RetriesGrow(e: Env, closed: bool, r: Record, msg: string, session: string, left: nat, delay: int)
    returns (m: nat, k: nat, c: nat)
    ensures Grown(e, r, RetryFrom(e, closed, r, msg, session, left, delay).0, Attempt(msg, session), m, k, c, delay)
    ensures m <= c <= left && (m >= 1 <==> left >= 1 && RetryContext(e, |r.waited|).None?)
    ensures Usable(e, closed) ==> m <= k
    decreases left
  {
    var a := Attempt(msg, session);
    if left == 0 {
      NoGrowth(e, r, a, delay);
      m, k, c := 0, 0, 0;
    } else {
      var next := NextDelay(e.retry, delay);
      var r' := Wait(r, delay);
      NoGrowth(e, r', a, next);
      if RetryContext(e, |r.waited|).Some? {
        GrowthAdds(e, r, r', r', a, 0, 0, 0, 0, 0, delay, next);
        m, k, c := 0, 0, 1;
      } else {
        var k1 := SendGrows(e, closed, r', msg, session, next);
        var (r'', result) := Send(e, closed, r', msg, session);
        if result.Ok? {
          AcceptKeepsLogs(e, r'', msg, result.value);
          var end := Accept(e, r'', msg, result.value).0;
          NoGrowthOfLogs(e, r'', end, a, next);
          GrowthAdds(e, r, r'', end, a, 1, k1, 0, 0, 0, delay, next);
          m, k, c := 1, k1, 1;
        } else {
          m, k, c := RetriesGrow(e, closed, r'', msg, session, left - 1, next);
          GrowthAdds(e, r, r'', RetryFrom(e, closed, r'', msg, session, left - 1, next).0, a, 1, k1, m, k, c, delay, next);
          m, k, c := 1 + m, k1 + k, c + 1;
        }
      }
    }
  }

  lemma NoGrowthOfLogs(e: Env, r: Record, r': Record, a: Attempt, delay: int)
    requires r'.sent == r.sent && r'.sends == r.sends && r'.slept == r.slept && r'.waited == r.waited
    ensures Grown(e, r, r', a, 0, 0, 0, delay)
  {
    NoGrowth(e, r, a, delay);
  }

  /** When nothing answers, all retries are made, each with all its attempts. */
  lemma {:induction false} DownUsesAllRetries(e: Env, closed: bool, r: Record, msg: string, session: string, left: nat, delay: int)
    requires AllDown(e, closed)
    ensures |RetryFrom(e, closed, r, msg, session, left, delay).0.sent| == |r.sent| + left * Allowed(e.retry)
    decreases left
  {
    if left > 0 {
      var r' := Wait(r, delay);
      var k := SendGrows(e, closed, r', msg, session, delay);
      var r'' := Send(e, closed, r', msg, session).0;
      DownUsesAllRetries(e, closed, r'', msg, session, left - 1, NextDelay(e.retry, delay));
      Distributes(1, left - 1, Allowed(e.retry));
    }
  }

  // ----- When a message is given up -----

  /** The message is lost without an answer having been accepted. */
  predicate GivenUp(err: Option<Error>) { err.Some? && !err.value.StdoutFailed? }

  /** The record just before the Send of the j-th retry, if it comes to that. */
  function RetryAt(e: Env, closed: bool, r: Record, msg: string, session: string, delay: int, j: nat): Record
    decreases j
  {
    var r' := Wait(r, delay);
    if j == 0 then r'
    else RetryAt(e, closed, Send(e, closed, r', msg, session).0, msg, session, NextDelay(e.retry, delay), j - 1)
  }

  /** It comes to that: the context is live at each wait up to it, and the retries before it have failed. */
  predicate RetryReached(e: Env, closed: bool, r: Record, msg: string, session: string, delay: int, j: nat)
    decreases j
  {
    var r' := Wait(r, delay);
    && RetryContext(e, |r.waited|).None?
    && (j == 0 || (Send(e, closed, r', msg, session).1.Err?
                   && RetryReached(e, closed, Send(e, closed, r', msg, session).0, msg, session, NextDelay(e.retry, delay), j - 1)))
  }

  predicate RetryFails(e: Env, closed: bool, r: Record, msg: string, session: string, delay: int, j: nat) {
    Send(e, closed, RetryAt(e, closed, r, msg, session, delay, j), msg, session).1.Err?
  }

  lemma AcceptIsNotGivenUp(e: Env, r: Record, msg: string, d: Delivered)
    ensures !GivenUp(Accept(e, r, msg, d).1)
  {
  }

  ghost predicate AllReachedFail(e: Env, closed: bool, r: Record, msg: string, session: string, delay: int, left: nat) {
    forall j | 0 <= j < left && RetryReached(e, closed, r, msg, session, delay, j) :: RetryFails(e, closed, r, msg, session, delay, j)
  }

  /** What is reached after a failed retry is what is reached from there on. */
  lemma ReachedShifts(e: Env, closed: bool, r: Record, msg: string, session: string, delay: int, left: nat)
    requires left >= 1 && RetryContext(e, |r.waited|).None? && Send(e, closed, Wait(r, delay), msg, session).1.Err?
    ensures AllReachedFail(e, closed, r, msg, session, delay, left)
            <==> AllReachedFail(e, closed, Send(e, closed, Wait(r, delay), msg, session).0, msg, session, NextDelay(e.retry, delay), left - 1)
  {
    var r'' := Send(e, closed, Wait(r, delay), msg, session).0;
    var next := NextDelay(e.retry, delay);
    forall j: nat | j < left - 1
      ensures RetryReached(e, closed, r, msg, session, delay, j + 1) == RetryReached(e, closed, r'', msg, session, next, j)
      ensures RetryFails(e, closed, r, msg, session, delay, j + 1) == RetryFails(e, closed, r'', msg, session, next, j)
    {
    }
    if AllReachedFail(e, closed, r, msg, session, delay, left) {
      forall j | 0 <= j < left - 1 && RetryReached(e, closed, r'', msg, session, next, j)
        ensures RetryFails(e, closed, r'', msg, session, next, j)
      {
        assert RetryReached(e, closed, r, msg, session, delay, j + 1);
      }
    }
    if AllReachedFail(e, closed, r'', msg, session, next, left - 1) {
      forall j | 0 <= j < left && RetryReached(e, closed, r, msg, session, delay, j)
        ensures RetryFails(e, closed, r, msg, session, delay, j)
      {
        if j > 0 {
          assert RetryReached(e, closed, r'', msg, session, next, j - 1);
        }
      }
    }
  }

  lemma {:induction false} RetriesGiveUpIff(e: Env, closed: bool, r: Record, msg: string, session: string, left: nat, delay: int)
    ensures GivenUp(RetryFrom(e, closed, r, msg, session, left, delay).1) <==> AllReachedFail(e, closed, r, msg, session, delay, left)
    decreases left
  {
    if left > 0 && RetryContext(e, |r.waited|).None? {
      var (r'', result) := Send(e, closed, Wait(r, delay), msg, session);
      if result.Ok? {
        AcceptIsNotGivenUp(e, r'', msg, result.value);
        assert RetryReached(e, closed, r, msg, session, delay, 0) && !RetryFails(e, closed, r, msg, session, delay, 0);
      } else {
        RetriesGiveUpIff(e, closed, r'', msg, session, left - 1, NextDelay(e.retry, delay));
        ReachedShifts(e, closed, r, msg, session, delay, left);
      }
    }
  }

  // ----- One message -----

  /** The session under which a message is retried: none, if the last exchange of the first Send found it expired. */
  function Again(e: Env, r: Record, k0: nat): string {
    if k0 >= 1 && Expired(Net(e, |r.sent| + k0 - 1)) then "" else r.session
  }

  /**
   A message is given up if and only if its first Send fails and, with retries on, so does every retry
   that it comes to: up to MaxRetries of them, as long as the context is live at the wait before each.
   */
  lemma GivenUpIff(e: Env, closed: bool, r: Record, msg: string)
    ensures var (r1, first) := Send(e, closed, r, msg, r.session);
            GivenUp(Handle(e, closed, r, msg).1) <==>
              && first.Err?
              && (e.retry.enabled ==>
                    var r2 := AfterFailure(r1, first.error);
                    AllReachedFail(e, closed, r2, msg, r2.session, e.retry.initialDelay, AllowedAgain(e.retry)))
  {
    var (r1, first) := Send(e, closed, r, msg, r.session);
    SendFacts(e, closed, |r.sends|, |r.sent|, |r.slept|);
    if first.Ok? {
      AcceptIsNotGivenUp(e, r1, msg, first.value);
    } else {
      var r2 := AfterFailure(r1, first.error);
      RetriesGiveUpIff(e, closed, r2, msg, r2.session, AllowedAgain(e.retry), e.retry.initialDelay);
    }
  }

  /** What a message adds to the record: k0 attempts of the first Send, then m more Sends with k attempts and c waits. */
  ghost predicate Spent(e: Env, closed: bool, r: Record, msg: string, k0: nat, m: nat, k: nat, c: nat) {
    var r' := Handle(e, closed, r, msg).0;
    var a0, a := Attempt(msg, r.session), Attempt(msg, Again(e, r, k0));
    && r'.sends == r.sends + [a0] + Repeat(a, m)
    && r'.sent == r.sent + Repeat(a0, k0) + Repeat(a, k)
    && r'.waited == r.waited + Delays(e.retry, c) && c <= AllowedAgain(e.retry)
    && k0 == SendingFrom(e, closed, |r.sends|, |r.sent|, |r.slept|).k
    && (Usable(e, closed) ==> 1 <= k0 && m <= k)
  }

  /** What one message may sleep, in the client's loop and in the transport's. */
  ghost predicate Asleep(retry: Retry, client: int, transport: int) {
    if !retry.enabled then client == 0 && transport == 0
    else Sane(retry) && 1 <= retry.maxRetries ==> 0 <= client + transport <= SleepBudget(retry)
  }

  lemma BudgetOfMessage(retry: Retry, k0: nat, m: nat, k: nat, slept0: int, slept: int, c: nat)
    requires retry.enabled && m <= AllowedAgain(retry) && c <= AllowedAgain(retry)
    requires Within(retry, 1, k0, slept0) && Within(retry, m, k, slept)
    ensures k0 + k <= AttemptBudget(retry) && Asleep(retry, Sum(Delays(retry, c)), slept0 + slept)
  {
    var most, left := Max(0, retry.maxRetries + 1), AllowedAgain(retry);
    Order(m, left, most);
    Distributes(1, left, most);
    if Sane(retry) && 1 <= retry.maxRetries {
      LoopSleepsWithin(retry, c);
      LoopSleepsWithin(retry, 0);
      SumIsTotal(retry, 0);
      Order(m, left, Allowance(retry));
      Distributes(2, left, Allowance(retry));
    }
  }

  lemma AnsweredAtOnce(e: Env, closed: bool, r: Record, msg: string)
    requires Send(e, closed, r, msg, r.session).1.Ok?
    ensures var s := SendingFrom(e, closed, |r.sends|, |r.sent|, |r.slept|);
            && Spent(e, closed, r, msg, s.k, 0, 0, 0)
            && Handle(e, closed, r, msg).0.slept == r.slept + s.slept
  {
    var (r1, first) := Send(e, closed, r, msg, r.session);
    SendFacts(e, closed, |r.sends|, |r.sent|, |r.slept|);
    AcceptKeepsLogs(e, r1, msg, first.value);
    NoGrowth(e, r1, Attempt(msg, Again(e, r, SendingFrom(e, closed, |r.sends|, |r.sent|, |r.slept|).k)), e.retry.initialDelay);
    ScheduleIsDelays(e.retry, 0);
  }

  lemma RetriedOrNot(e: Env, closed: bool, r: Record, msg: string) returns (m: nat, k: nat, c: nat)
    requires Send(e, closed, r, msg, r.session).1.Err?
    ensures var s := SendingFrom(e, closed, |r.sends|, |r.sent|, |r.slept|);
            && Spent(e, closed, r, msg, s.k, m, k, c)
            && (m >= 1 <==> AllowedAgain(e.retry) >= 1 && RetryContext(e, |r.waited|).None?) && m <= AllowedAgain(e.retry)
            && var slept := Sum(Handle(e, closed, r, msg).0.slept) - Sum(r.slept + s.slept);
               if e.retry.enabled then Within(e.retry, m, k, slept) else k == 0 && c == 0 && slept == 0
  {
    var (r1, first) := Send(e, closed, r, msg, r.session);
    SendFacts(e, closed, |r.sends|, |r.sent|, |r.slept|);
    var r2 := AfterFailure(r1, first.error);
    m, k, c := 0, 0, 0;
    if e.retry.enabled {
      m, k, c := RetriesGrow(e, closed, r2, msg, r2.session, AllowedAgain(e.retry), e.retry.initialDelay);
    } else {
      NoGrowth(e, r2, Attempt(msg, r2.session), e.retry.initialDelay);
    }
    ScheduleIsDelays(e.retry, c);
  }

  /**
   One message costs at most its budget of attempts and of time asleep. All its attempts carry exactly
   its bytes. It is sent again if and only if its first Send fails, at least one retry is allowed and the
   context is live at the first wait; and then without a session id if that Send found it expired.
   */
  lemma MessageStaysWithin(e: Env, closed: bool, r: Record, msg: string) returns (k0: nat, m: nat, k: nat, c: nat)
    ensures Spent(e, closed, r, msg, k0, m, k, c)
    ensures m >= 1 <==> Send(e, closed, r, msg, r.session).1.Err? && AllowedAgain(e.retry) >= 1 && RetryContext(e, |r.waited|).None?
    ensures k0 + k <= AttemptBudget(e.retry)
    ensures var r' := Handle(e, closed, r, msg).0; Asleep(e.retry, Sum(Delays(e.retry, c)), Sum(r'.slept) - Sum(r.slept))
  {
    var s := SendingFrom(e, closed, |r.sends|, |r.sent|, |r.slept|);
    SendFacts(e, closed, |r.sends|, |r.sent|, |r.slept|);
    SumOfConcat(r.slept, s.slept);
    k0, m, k, c := s.k, 0, 0, 0;
    if s.result.Ok? {
      AnsweredAtOnce(e, closed, r, msg);
    } else {
      m, k, c := RetriedOrNot(e, closed, r, msg);
    }
    if e.retry.enabled {
      OneSend(e.retry, k0, s.slept);
      NothingSpent(e.retry);
      BudgetOfMessage(e.retry, k0, m, k, Sum(s.slept), Sum(Handle(e, closed, r, msg).0.slept) - Sum(r.slept + s.slept), c);
    }
  }

  /** When nothing answers, a message costs exactly its budget of attempts. */
  lemma DownCostsTheBudget(e: Env, closed: bool, r: Record, msg: string)
    requires AllDown(e, closed)
    ensures |Handle(e, closed, r, msg).0.sent| == |r.sent| + AttemptBudget(e.retry)
  {
    var (r1, first) := Send(e, closed, r, msg, r.session);
    var k0 := SendGrows(e, closed, r, msg, r.session, 0);
    if e.retry.enabled {
      var r2 := AfterFailure(r1, first.error);
      DownUsesAllRetries(e, closed, r2, msg, r2.session, AllowedAgain(e.retry), e.retry.initialDelay);
      Distributes(1, AllowedAgain(e.retry), Allowed(e.retry));
    }
  }

  /**
   A message that meets an expired session is sent again if and only if retries are on, at least one is
   allowed and the context is live at the first wait; and it is then sent without a session id.
   */
  lemma ExpiredIsResentIff(e: Env, closed: bool, r: Record, msg: string)
    requires var s := SendingFrom(e, closed, |r.sends|, |r.sent|, |r.slept|); s.k >= 1 && Expired(Net(e, |r.sent| + s.k - 1))
    ensures var sends := Handle(e, closed, r, msg).0.sends;
            && (|sends| > |r.sends| + 1 <==> e.retry.enabled && e.retry.maxRetries >= 1 && RetryContext(e, |r.waited|).None?)
            && (forall i :: |r.sends| < i < |sends| ==> sends[i] == Attempt(msg, ""))
  {
    var k0, m, k, c := MessageStaysWithin(e, closed, r, msg);
    SendFacts(e, closed, |r.sends|, |r.sent|, |r.slept|);
    var s := SendingFrom(e, closed, |r.sends|, |r.sent|, |r.slept|);
    assert k0 == s.k && Again(e, r, k0) == "";
  }

  // ----- What comes out -----

  predicate EndsInLf(s: string) { s != "" && s[|s| - 1] == '\n' }

  /** Nothing that a reader of stdout or the next message could see has changed. */
  predicate SameOutput(r: Record, r': Record) {
    r'.session == r.session && r'.lines == r.lines && r'.out == r.out && r'.torn == r.torn && r'.writes == r.writes
  }

  /** The last exchange succeeded, and its response was accepted; writing it fails if and only if stdout has no room for all of it. */
  ghost predicate Answered(e: Env, msg: string, r: Record, r': Record, err: Option<Error>) {
    && |r'.sent| > |r.sent| && Success(Net(e, |r'.sent| - 1))
    && var resp := Net(e, |r'.sent| - 1).resp;
       var chunk, room := resp.body.value + (if EndsInLf(resp.body.value) then "" else "\n"), e.room(r.writes);
       && r'.session == (if resp.session != "" then resp.session else r.session)
       && (if IsNotification(e, msg) || resp.body.value == "" then SameOutput(r, r'.(session := r.session)) && err.None?
           else r'.writes == r.writes + 1 && if room >= |chunk| then r'.lines == r.lines + [resp.body.value] && r'.out == r.out + chunk && r'.torn == r.torn && err.None?
           else r'.lines == r.lines && r'.out == r.out + chunk[..room] && r'.torn == (r.torn || room > 0) && err == Some(StdoutFailed))
  }

  ghost predicate Settled(e: Env, msg: string, r: Record, r': Record, err: Option<Error>) {
    if GivenUp(err) then SameOutput(r, r') else Answered(e, msg, r, r', err)
  }

  lemma AcceptAnswers(e: Env, closed: bool, r: Record, msg: string, session: string)
    requires Send(e, closed, r, msg, session).1.Ok?
    ensures var (r', result) := Send(e, closed, r, msg, session);
            var (r'', err) := Accept(e, r', msg, result.value);
            !GivenUp(err) && Answered(e, msg, r, r'', err)
  {
    SendFacts(e, closed, |r.sends|, |r.sent|, |r.slept|);
  }

  /** Failing first and being answered later comes to the same as being answered. */
  lemma AnsweredLater(e: Env, msg: string, r: Record, r1: Record, r': Record, err: Option<Error>)
    requires SameOutput(r, r1) && |r1.sent| >= |r.sent| && Settled(e, msg, r1, r', err)
    ensures Settled(e, msg, r, r', err)
  {
  }

  lemma {:induction false} RetriesSettle(e: Env, closed: bool, r: Record, msg: string, session: string, left: nat, delay: int)
    ensures var (r', err) := RetryFrom(e, closed, r, msg, session, left, delay); Settled(e, msg, r, r', err)
    decreases left
  {
    if left > 0 {
      var r' := Wait(r, delay);
      if RetryContext(e, |r.waited|).None? {
        var (r'', result) := Send(e, closed, r', msg, session);
        if result.Ok? {
          AcceptAnswers(e, closed, r', msg, session);
          var (r3, err) := Accept(e, r'', msg, result.value);
          AnsweredLater(e, msg, r, r', r3, err);
        } else {
          var (r3, err) := RetryFrom(e, closed, r'', msg, session, left - 1, NextDelay(e.retry, delay));
          RetriesSettle(e, closed, r'', msg, session, left - 1, NextDelay(e.retry, delay));
          AnsweredLater(e, msg, r, r'', r3, err);
        }
      }
    }
  }

  /**
   The outcome of a message is told by its last exchange. If it is given up, stdout stays as it was and
   only an expired session id is dropped; otherwise the last exchange succeeded and its body goes to
   stdout, except for notifications and empty bodies.
   */
  lemma MessageSettles(e: Env, closed: bool, r: Record, msg: string)
    ensures var s := SendingFrom(e, closed, |r.sends|, |r.sent|, |r.slept|);
            var (r', err) := Handle(e, closed, r, msg);
            Settled(e, msg, if s.result.Ok? then r else r.(session := Again(e, r, s.k)), r', err)
  {
    SendFacts(e, closed, |r.sends|, |r.sent|, |r.slept|);
    var (r1, first) := Send(e, closed, r, msg, r.session);
    if first.Ok? {
      AcceptAnswers(e, closed, r, msg, r.session);
    } else {
      var r2 := AfterFailure(r1, first.error);
      var r0 := r.(session := r2.session);
      if e.retry.enabled {
        RetriesSettle(e, closed, r2, msg, r2.session, AllowedAgain(e.retry), e.retry.initialDelay);
        var (r', err) := Handle(e, closed, r, msg);
        AnsweredLater(e, msg, r0, r2, r', err);
      }
    }
  }

  // ----- Where a run stops -----

  /** An error behind which there is a context error, except the transport's own word for a cancelled attempt. */
  predicate StopsRun(err: Option<Error>) {
    err.Some? && match err.value
      case AuthFailed(cause) => cause == Canceled || cause == Deadline
      case AttemptsFailed(cause) => cause == Canceled || cause == Deadline
      case ContextDone(cause) => cause == Canceled || cause == Deadline
      case BodyUnreadable(cause) => cause == Canceled || cause == Deadline
      case _ => false
  }

  /** The record after the messages from i to j. */
  function RecordAt(e: Env, closed: bool, r: Record, messages: seq<string>, i: nat, j: nat): Record
    requires i <= j <= |messages|
    decreases j - i
  {
    if i == j then r else RecordAt(e, closed, Handle(e, closed, r, messages[i]).0, messages, i + 1, j)
  }

  /** The error of the j-th message. */
  function ErrorAt(e: Env, closed: bool, r: Record, messages: seq<string>, i: nat, j: nat): Option<Error>
    requires i <= j < |messages|
  {
    Handle(e, closed, RecordAt(e, closed, r, messages, i, j), messages[j]).1
  }

  /** The run handled the messages from i to n in turn, none of them but the last with an error that stops it, and then stopped for one of the three reasons there are. */
  ghost predicate Stopped(e: Env, closed: bool, r: Record, messages: seq<string>, stop: nat -> Option<Cause>, i: nat, run: Run) {
    && i <= run.handled <= |messages| && run.r == RecordAt(e, closed, r, messages, i, run.handled)
    && (forall j :: i <= j < run.handled ==> stop(j).None?)
    && (forall j :: i <= j < run.handled - 1 ==> !StopsRun(ErrorAt(e, closed, r, messages, i, j)))
    && if i < run.handled && StopsRun(ErrorAt(e, closed, r, messages, i, run.handled - 1))
       then run.e == ErrorAt(e, closed, r, messages, i, run.handled - 1)
       else if stop(run.handled).Some? then run.e == Some(ContextDone(stop(run.handled).value))
       else run.handled == |messages| && run.e.None?
  }

  /** A run goes on until stdin ends, the context is found done or a message meets a context error, and no longer. */
  lemma {:induction false} RunStops(e: Env, closed: bool, r: Record, messages: seq<string>, stop: nat -> Option<Cause>, i: nat)
    requires i <= |messages|
    ensures Stopped(e, closed, r, messages, stop, i, RunFrom(e, closed, r, messages, stop, i))
    decreases |messages| - i
  {
    if stop(i).None? && i < |messages| {
      var (r', err) := Handle(e, closed, r, messages[i]);
      assert ErrorAt(e, closed, r, messages, i, i) == err;
      if StopsRun(err) {
        assert RecordAt(e, closed, r, messages, i, i + 1) == r';
      } else {
        RunStops(e, closed, r', messages, stop, i + 1);
        StoppedLater(e, closed, r, r', messages, stop, i, RunFrom(e, closed, r', messages, stop, i + 1));
      }
    }
  }

  lemma StoppedLater(e: Env, closed: bool, r: Record, r': Record, messages: seq<string>, stop: nat -> Option<Cause>, i: nat, run: Run)
    requires i < |messages| && stop(i).None? && (r', Handle(e, closed, r, messages[i]).1) == Handle(e, closed, r, messages[i])
    requires !StopsRun(ErrorAt(e, closed, r, messages, i, i)) && Stopped(e, closed, r', messages, stop, i + 1, run)
    ensures Stopped(e, closed, r, messages, stop, i, run)
  {
    forall j | i + 1 <= j < |messages|
      ensures ErrorAt(e, closed, r, messages, i, j) == ErrorAt(e, closed, r', messages, i + 1, j)
    {
      ShiftOne(e, closed, r, r', messages, i, j);
    }
    assert RecordAt(e, closed, r, messages, i, run.handled) == RecordAt(e, closed, r', messages, i + 1, run.handled);
  }

  lemma ShiftOne(e: Env, closed: bool, r: Record, r': Record, messages: seq<string>, i: nat, j: nat)
    requires i < j < |messages| && r' == Handle(e, closed, r, messages[i]).0
    ensures ErrorAt(e, closed, r, messages, i, j) == ErrorAt(e, closed, r', messages, i + 1, j)
  {
    assert RecordAt(e, closed, r, messages, i, j) == RecordAt(e, closed, r', messages, i + 1, j);
  }

  // ----- Why a message is given up -----

  /** The error of a message that is given up by the retries: the first wait that finds the context done, or their number. */
  lemma {:induction false} WhyRetriesEnd(e: Env, closed: bool, r: Record, msg: string, session: string, left: nat, delay: int)
    ensures var (r', err) := RetryFrom(e, closed, r, msg, session, left, delay);
            var w := |r'.waited|;
            GivenUp(err) ==>
              if w > |r.waited| && RetryContext(e, w - 1).Some? then err == Some(ContextDone(RetryContext(e, w - 1).value))
              else err == Some(RetriesExceeded) && w == |r.waited| + left
    decreases left
  {
    if left > 0 {
      var r' := Wait(r, delay);
      if RetryContext(e, |r.waited|).None? {
        var (r'', result) := Send(e, closed, r', msg, session);
        if result.Ok? {
          AcceptIsNotGivenUp(e, r'', msg, result.value);
        } else {
          WhyRetriesEnd(e, closed, r'', msg, session, left - 1, NextDelay(e.retry, delay));
        }
      }
    }
  }

  /**
   With retries on, a message that is given up tells of the wait at which the context was done, or that
   all its retries are used up; with retries off, of its first Send, unless that found the session expired.
   */
  lemma WhyGivenUp(e: Env, closed: bool, r: Record, msg: string)
    ensures var s := SendingFrom(e, closed, |r.sends|, |r.sent|, |r.slept|);
            var (r', err) := Handle(e, closed, r, msg);
            var w := |r'.waited|;
            GivenUp(err) ==>
              && s.result.Err?
              && if !e.retry.enabled then err == Some(if s.k >= 1 && Expired(Net(e, |r.sent| + s.k - 1)) then RetriesOff else s.result.error)
                 else if w > |r.waited| && RetryContext(e, w - 1).Some? then err == Some(ContextDone(RetryContext(e, w - 1).value))
                 else err == Some(RetriesExceeded) && w == |r.waited| + AllowedAgain(e.retry)
  {
    var (r1, first) := Send(e, closed, r, msg, r.session);
    SendFacts(e, closed, |r.sends|, |r.sent|, |r.slept|);
    if first.Ok? {
      AcceptIsNotGivenUp(e, r1, msg, first.value);
    } else if e.retry.enabled {
      var r2 := AfterFailure(r1, first.error);
      WhyRetriesEnd(e, closed, r2, msg, r2.session, AllowedAgain(e.retry), e.retry.initialDelay);
    }
  }

  // ----- A whole run -----

  /** What one message adds, as far as a run is concerned. */
  ghost predicate OneMessage(e: Env, closed: bool, msg: string, r: Record, r': Record) {
    && |r.sent| <= |r'.sent| <= |r.sent| + AttemptBudget(e.retry)
    && r'.sent[..|r.sent|] == r.sent
    && (forall i :: |r.sent| <= i < |r'.sent| ==> r'.sent[i].body == msg)
    && (Usable(e, closed) ==> |r'.sent| > |r.sent|)
    && (r'.lines == r.lines
        || (|r'.sent| > |r.sent| && |r'.lines| == |r.lines| + 1 && r'.lines[..|r.lines|] == r.lines
            && Answers(e, msg, |r'.sent| - 1, r'.lines[|r.lines|])))
  }

  /** The i-th exchange answered msg, which is not a notification, with this body. */
  ghost predicate Answers(e: Env, msg: string, i: nat, body: string) {
    !IsNotification(e, msg) && Success(Net(e, i)) && Net(e, i).resp.body.value == body && body != ""
  }

  lemma MessageIsOne(e: Env, closed: bool, r: Record, msg: string)
    ensures OneMessage(e, closed, msg, r, Handle(e, closed, r, msg).0)
  {
    var k0, m, k, c := MessageStaysWithin(e, closed, r, msg);
    MessageSettles(e, closed, r, msg);
  }

  /**
   The run over the messages of stdin, since n attempts and base lines ago: about says for every attempt
   which message it is for, and origin for every message on stdout which attempt it answers.
   */
  ghost predicate RunRecord(e: Env, closed: bool, messages: seq<string>, handled: nat, n: nat, base: nat, r: Record,
                            about: seq<nat>, origin: seq<nat>)
  {
    && handled <= |messages| && n + |about| == |r.sent| && base + |origin| == |r.lines|
    && |about| <= handled * AttemptBudget(e.retry)
    && (forall i :: 0 <= i < |about| ==> about[i] < handled && r.sent[n + i].body == messages[about[i]])
    && (forall i, j :: 0 <= i < j < |about| ==> about[i] <= about[j])
    && (Usable(e, closed) ==> forall i :: 0 <= i < handled ==> i in about)
    && (forall j :: 0 <= j < |origin| ==> origin[j] < |about| && Answers(e, messages[about[origin[j]]], n + origin[j], r.lines[base + j]))
    && (forall i, j :: 0 <= i < j < |origin| ==> about[origin[i]] < about[origin[j]])
  }

  lemma AttemptsGrow(e: Env, closed: bool, messages: seq<string>, handled: nat, n: nat, base: nat, r: Record, r': Record,
                     about: seq<nat>, origin: seq<nat>)
    requires RunRecord(e, closed, messages, handled, n, base, r, about, origin) && handled < |messages|
    requires OneMessage(e, closed, messages[handled], r, r')
    ensures RunRecord(e, closed, messages, handled + 1, n, base, r'.(lines := r.lines), about + Repeat(handled, |r'.sent| - |r.sent|), origin)
  {
    var k := |r'.sent| - |r.sent|;
    var about' := about + Repeat(handled, k);
    Distributes(handled, 1, AttemptBudget(e.retry));
    forall i | 0 <= i < |about'| ensures about'[i] < handled + 1 && r'.sent[n + i].body == messages[about'[i]] {
      if i < |about| {
        assert r'.sent[n + i] == r'.sent[..|r.sent|][n + i];
      }
    }
    if Usable(e, closed) {
      assert about'[|about|] == handled;
      forall i | 0 <= i < handled ensures i in about' {
        assert i in about;
      }
    }
  }

  lemma LineGrows(e: Env, closed: bool, messages: seq<string>, handled: nat, n: nat, base: nat, r: Record, line: string,
                  about: seq<nat>, origin: seq<nat>)
    requires RunRecord(e, closed, messages, handled, n, base, r, about, origin) && 0 < |about|
    requires Answers(e, messages[about[|about| - 1]], |r.sent| - 1, line)
    requires forall j :: 0 <= j < |origin| ==> about[origin[j]] < about[|about| - 1]
    ensures RunRecord(e, closed, messages, handled, n, base, r.(lines := r.lines + [line]), about, origin + [|about| - 1])
  {
  }

  lemma RecordGrows(e: Env, closed: bool, messages: seq<string>, handled: nat, n: nat, base: nat, r: Record, r': Record,
                    about: seq<nat>, origin: seq<nat>) returns (about': seq<nat>, origin': seq<nat>)
    requires RunRecord(e, closed, messages, handled, n, base, r, about, origin) && handled < |messages|
    requires OneMessage(e, closed, messages[handled], r, r')
    ensures RunRecord(e, closed, messages, handled + 1, n, base, r', about', origin')
  {
    AttemptsGrow(e, closed, messages, handled, n, base, r, r', about, origin);
    about', origin' := about + Repeat(handled, |r'.sent| - |r.sent|), origin;
    if r'.lines != r.lines {
      var line := r'.lines[|r.lines|];
      assert r'.lines == r.lines + [line];
      LineGrows(e, closed, messages, handled + 1, n, base, r'.(lines := r.lines), line, about', origin);
      origin' := origin + [|about'| - 1];
    }
  }

  /**
   In every run, each stdin message costs at most its budget of attempts, all with its bytes and in
   input order; and each message on stdout is the body of a response to an attempt for a message that
   is not a notification, at most one for each, in input order. If Sends are possible at all, every
   message that was handled was sent.
   */
  lemma {:induction false} RunIsRecorded(e: Env, closed: bool, r: Record, messages: seq<string>, stop: nat -> Option<Cause>, i: nat,
                                         n: nat, base: nat, about: seq<nat>, origin: seq<nat>)
    returns (about': seq<nat>, origin': seq<nat>)
    requires RunRecord(e, closed, messages, i, n, base, r, about, origin)
    ensures var run := RunFrom(e, closed, r, messages, stop, i);
            && RunRecord(e, closed, messages, run.handled, n, base, run.r, about', origin')
    decreases |messages| - i
  {
    about', origin' := about, origin;
    if stop(i).None? && i < |messages| {
      var (r', err) := Handle(e, closed, r, messages[i]);
      MessageIsOne(e, closed, r, messages[i]);
      about', origin' := RecordGrows(e, closed, messages, i, n, base, r, r', about, origin);
      if !(err.Some? && Fatal(err.value)) {
        about', origin' := RunIsRecorded(e, closed, r', messages, stop, i + 1, n, base, about', origin');
      }
    }
  }
}
