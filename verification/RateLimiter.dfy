/**
 The per-IP fixed-window rate limiter of internal/authserver/ratelimit.go.

 Time is an integer number of nanoseconds. The clock reading of each call is a parameter, and
 readings never go backwards. A run is the sequence of calls that took the limiter's mutex.
 */
module RateLimiting {
  import opened Common

  datatype Policy = Policy(maxRequests: int, windowDuration: int)

  datatype Window = Window(count: int, expiry: int)

  datatype Call = Request(ip: string, at: int) | Sweep(at: int)

  predicate Chronological(calls: seq<Call>) {
    forall i, j :: 0 <= i < j < |calls| ==> calls[i].at <= calls[j].at
  }

  // ----- What one call does -----

  function Lookup(windows: map<string, Window>, ip: string): Option<Window> {
    if ip in windows then Some(windows[ip]) else None
  }

  predicate Live(w: Option<Window>, now: int) {
    w.Some? && now <= w.value.expiry
  }

  /** The window of an IP after one of its requests. */
  function Renew(p: Policy, w: Option<Window>, now: int): Window {
    if Live(w, now) then Window(w.value.count + 1, w.value.expiry) else Window(1, now + p.windowDuration)
  }

  /** The answer to that request. */
  predicate Verdict(p: Policy, w: Option<Window>, now: int) {
    Live(w, now) ==> w.value.count + 1 <= p.maxRequests
  }

  function Swept(windows: map<string, Window>, now: int): map<string, Window> {
    map ip | ip in windows && now <= windows[ip].expiry :: windows[ip]
  }

  function Effect(p: Policy, windows: map<string, Window>, c: Call): map<string, Window> {
    match c
    case Request(ip, at) => windows[ip := Renew(p, Lookup(windows, ip), at)]
    case Sweep(at) => Swept(windows, at)
  }

  function WindowsAfter(p: Policy, windows: map<string, Window>, calls: seq<Call>): map<string, Window>
    decreases calls
  {
    if calls == [] then windows else WindowsAfter(p, Effect(p, windows, calls[0]), calls[1..])
  }

  /** The answers ip gets in a run that starts from the given table. */
  function AnswersTo(p: Policy, windows: map<string, Window>, calls: seq<Call>, ip: string): seq<bool>
    decreases calls
  {
    if calls == [] then []
    else (if calls[0].Request? && calls[0].ip == ip then [Verdict(p, Lookup(windows, ip), calls[0].at)] else [])
         + AnswersTo(p, Effect(p, windows, calls[0]), calls[1..], ip)
  }

  lemma {:induction false} OneMoreCall(p: Policy, windows: map<string, Window>, calls: seq<Call>, c: Call, ip: string)
    ensures WindowsAfter(p, windows, calls + [c]) == Effect(p, WindowsAfter(p, windows, calls), c)
    ensures AnswersTo(p, windows, calls + [c], ip)
            == AnswersTo(p, windows, calls, ip)
               + (if c.Request? && c.ip == ip then [Verdict(p, Lookup(WindowsAfter(p, windows, calls), ip), c.at)] else [])
    decreases calls
  {
    if calls == [] {
      assert (calls + [c])[1..] == [];
    } else {
      assert (calls + [c])[1..] == calls[1..] + [c];
      OneMoreCall(p, Effect(p, windows, calls[0]), calls[1..], c, ip);
    }
  }

  /** The limiter. The ghost log is the run so far; the table is always the one the run leads to. */
  class RateLimiter {
    const policy: Policy
    var windows: map<string, Window>
    ghost var log: seq<Call>

    ghost predicate Valid()
      reads this
    {
      Chronological(log) && windows == WindowsAfter(policy, map[], log)
    }

    ghost predicate ClockMayRead(now: int)
      reads this
    {
      log == [] || log[|log| - 1].at <= now
    }

    constructor (maxRequests: int, windowDuration: int)
      ensures Valid() && log == [] && policy == Policy(maxRequests, windowDuration)
    {
      policy := Policy(maxRequests, windowDuration);
      windows := map[];
      log := [];
    }

    method Allow(ip: string, now: int) returns (ok: bool)
      requires Valid() && ClockMayRead(now)
      modifies this
      ensures Valid() && log == old(log) + [Request(ip, now)]
      ensures AnswersTo(policy, map[], log, ip) == AnswersTo(policy, map[], old(log), ip) + [ok]
    {
      ghost var call := Request(ip, now);
      ghost var next := Effect(policy, windows, call);
      if ip !in windows || now > windows[ip].expiry {
        windows := windows[ip := Window(1, now + policy.windowDuration)];
        ok := true;
      } else {
        var w := windows[ip];
        w := w.(count := w.count + 1);
        windows := windows[ip := w];
        ok := w.count <= policy.maxRequests;
      }
      assert windows == next;
      OneMoreCall(policy, map[], log, call, ip);
      log := log + [call];
    }

    method Cleanup(now: int)
      requires Valid() && ClockMayRead(now)
      modifies this
      ensures Valid() && log == old(log) + [Sweep(now)]
    {
      var todo := windows.Keys;
      while todo != {}
        invariant todo <= old(windows).Keys
        invariant log == old(log)
        invariant forall ip :: ip in windows <==> ip in old(windows) && (ip in todo || now <= old(windows)[ip].expiry)
        invariant forall ip :: ip in windows ==> windows[ip] == old(windows)[ip]
      {
        var ip :| ip in todo;
        if now > windows[ip].expiry {
          windows := windows - {ip};
        }
        todo := todo - {ip};
      }
      assert windows == Swept(old(windows), now);
      OneMoreCall(policy, map[], log, Sweep(now), "");
      log := log + [Sweep(now)];
    }
  }

  // ----- One IP on its own -----

  /** The times at which ip asked. */
  function Times(calls: seq<Call>, ip: string): seq<int> {
    if calls == [] then []
    else (if calls[0].Request? && calls[0].ip == ip then [calls[0].at] else []) + Times(calls[1..], ip)
  }

  /** A limiter that serves a single IP and is never swept. */
  function SoloAnswers(p: Policy, w: Option<Window>, times: seq<int>): (answers: seq<bool>)
    ensures |answers| == |times|
    decreases times
  {
    if times == [] then []
    else [Verdict(p, w, times[0])] + SoloAnswers(p, Some(Renew(p, w, times[0])), times[1..])
  }

  /** Equal windows, or one was swept and the other is already dead. */
  predicate Agree(windows: map<string, Window>, ip: string, w: Option<Window>, now: int) {
    Lookup(windows, ip) == w || (Lookup(windows, ip).None? && !Live(w, now))
  }

  lemma {:induction false} AnswersAgree(p: Policy, windows: map<string, Window>, w: Option<Window>, calls: seq<Call>, ip: string, now: int)
    requires Chronological(calls)
    requires calls != [] ==> now <= calls[0].at
    requires Agree(windows, ip, w, now)
    ensures AnswersTo(p, windows, calls, ip) == SoloAnswers(p, w, Times(calls, ip))
    decreases calls
  {
    if calls != [] {
      var c := calls[0];
      var rest := calls[1..];
      var next := Effect(p, windows, c);
      if c.Request? && c.ip == ip {
        var w' := Some(Renew(p, w, c.at));
        AnswersAgree(p, next, w', rest, ip, c.at);
        assert Times(calls, ip)[0] == c.at && Times(calls, ip)[1..] == Times(rest, ip);
      } else {
        AnswersAgree(p, next, w, rest, ip, c.at);
        assert Times(calls, ip) == Times(rest, ip);
      }
    }
  }

  /** Neither other IPs nor sweeps, at whatever points they happen, change any answer. */
  lemma CleanupAndOtherClientsAreInvisible(p: Policy, calls: seq<Call>, ip: string)
    requires Chronological(calls)
    ensures AnswersTo(p, map[], calls, ip) == SoloAnswers(p, None, Times(calls, ip))
  {
    if calls != [] {
      AnswersAgree(p, map[], None, calls, ip, calls[0].at);
    }
  }

  predicate Sorted(times: seq<int>) {
    forall i, j :: 0 <= i < j < |times| ==> times[i] <= times[j]
  }

  lemma {:induction false} TimesAreSorted(calls: seq<Call>, ip: string)
    requires Chronological(calls)
    ensures Sorted(Times(calls, ip))
    ensures forall t :: t in Times(calls, ip) ==> calls != [] && calls[0].at <= t
  {
    if calls != [] {
      var rest := Times(calls[1..], ip);
      TimesAreSorted(calls[1..], ip);
      assert forall i :: 0 <= i < |rest| ==> rest[i] in rest;
    }
  }

  // ----- The rate bound -----

  /** How many requests with a true answer fall into the closed interval [lo, hi]. */
  function Granted(times: seq<int>, answers: seq<bool>, lo: int, hi: int): nat
    requires |times| == |answers|
  {
    if times == [] then 0
    else (if answers[0] && lo <= times[0] <= hi then 1 else 0) + Granted(times[1..], answers[1..], lo, hi)
  }

  function Quota(p: Policy): int { Max(1, p.maxRequests) }

  function Unspent(p: Policy, w: Window): int { Max(0, Quota(p) - w.count) }

  /** How many windows can open within span nanoseconds of each other. */
  function Starts(p: Policy, span: int): (n: nat)
    requires p.windowDuration >= 0
    decreases if span < 0 then 0 else span + 1
  {
    if span < 0 then 0 else 1 + Starts(p, span - p.windowDuration - 1)
  }

  /** At least n, if and only if n - 1 windows and the gaps after them fit in between. */
  lemma {:induction false} StartsAtLeast(p: Policy, span: int, n: nat)
    requires p.windowDuration >= 0 && n >= 1
    ensures n <= Starts(p, span) <==> (n - 1) * (p.windowDuration + 1) <= span
    decreases n
  {
    var d1 := p.windowDuration + 1;
    if n >= 2 {
      assert (n - 1) * d1 == (n - 2) * d1 + d1;
      assert (n - 2) * d1 >= 0;
      if span >= 0 {
        StartsAtLeast(p, span - d1, n - 1);
      }
    }
  }

  lemma {:induction false} StartsGrow(p: Policy, a: int, b: int)
    requires p.windowDuration >= 0 && a <= b
    ensures Starts(p, a) <= Starts(p, b)
  {
    if Starts(p, a) >= 1 {
      StartsAtLeast(p, a, Starts(p, a));
      StartsAtLeast(p, b, Starts(p, a));
    }
  }

  lemma QuotaTimes(p: Policy, n: nat, m: nat)
    requires n <= m
    ensures n * Quota(p) <= m * Quota(p) && (n + 1) * Quota(p) == n * Quota(p) + Quota(p)
  {
  }

  lemma {:induction false} NothingGrantedLate(times: seq<int>, answers: seq<bool>, lo: int, hi: int)
    requires |times| == |answers| && Sorted(times)
    requires times != [] ==> times[0] > hi
    ensures Granted(times, answers, lo, hi) == 0
  {
    if times != [] {
      NothingGrantedLate(times[1..], answers[1..], lo, hi);
    }
  }

  /** From a window on: what it has left, and then full windows that open after it. */
  lemma {:induction false} GrantedFromWindow(p: Policy, w: Window, times: seq<int>, lo: int, hi: int)
    requires p.windowDuration >= 0 && Sorted(times) && w.count >= 1
    ensures Granted(times, SoloAnswers(p, Some(w), times), lo, hi) <= Unspent(p, w) + Starts(p, hi - w.expiry - 1) * Quota(p)
    decreases times
  {
    if times != [] {
      var t := times[0];
      if t > hi {
        NothingGrantedLate(times, SoloAnswers(p, Some(w), times), lo, hi);
      } else {
        var w' := Renew(p, Some(w), t);
        GrantedFromWindow(p, w', times[1..], lo, hi);
        if t > w.expiry {
          StartsGrow(p, hi - t, hi - w.expiry - 1);
          QuotaTimes(p, Starts(p, hi - t), Starts(p, hi - w.expiry - 1));
          QuotaTimes(p, Starts(p, hi - t - p.windowDuration - 1), Starts(p, hi - t));
        }
      }
    }
  }

  /** The most requests that can be granted within span nanoseconds: full windows, or the end of one and full windows after it. */
  function MostGranted(p: Policy, span: nat): int
    requires p.windowDuration >= 0
  {
    var full := Starts(p, span) * Quota(p);
    if p.windowDuration == 0 then full else Max(full, Quota(p) - 1 + Starts(p, span - 1) * Quota(p))
  }

  lemma {:induction false} SoloRateBound(p: Policy, w: Option<Window>, times: seq<int>, lo: int, hi: int)
    requires lo <= hi && p.windowDuration >= 0 && Sorted(times)
    requires w.Some? ==> w.value.count >= 1 && w.value.expiry - p.windowDuration < lo
    ensures Granted(times, SoloAnswers(p, w, times), lo, hi) <= MostGranted(p, hi - lo)
    decreases times
  {
    if times != [] {
      var t := times[0];
      var w' := Renew(p, w, t);
      if t < lo {
        SoloRateBound(p, Some(w'), times[1..], lo, hi);
      } else if t > hi {
        NothingGrantedLate(times, SoloAnswers(p, w, times), lo, hi);
      } else if Live(w, t) {
        GrantedFromWindow(p, w.value, times, lo, hi);
        StartsGrow(p, hi - w.value.expiry - 1, hi - lo - 1);
        QuotaTimes(p, Starts(p, hi - w.value.expiry - 1), Starts(p, hi - lo - 1));
      } else {
        GrantedFromWindow(p, w', times[1..], lo, hi);
        StartsGrow(p, hi - t, hi - lo);
        QuotaTimes(p, Starts(p, hi - t), Starts(p, hi - lo));
        QuotaTimes(p, Starts(p, hi - t - p.windowDuration - 1), Starts(p, hi - t));
      }
    }
  }

  /** In every run, whatever other IPs and the sweeps do, one IP is never granted more than that within any closed interval. */
  lemma GrantsAreBounded(p: Policy, calls: seq<Call>, ip: string, lo: int, hi: int)
    requires Chronological(calls) && p.windowDuration >= 0 && lo <= hi
    ensures |AnswersTo(p, map[], calls, ip)| == |Times(calls, ip)|
    ensures Granted(Times(calls, ip), AnswersTo(p, map[], calls, ip), lo, hi) <= MostGranted(p, hi - lo)
  {
    CleanupAndOtherClientsAreInvisible(p, calls, ip);
    TimesAreSorted(calls, ip);
    SoloRateBound(p, None, Times(calls, ip), lo, hi);
  }

  lemma WindowsAndGaps(k: nat, d: nat)
    requires k >= 1
    ensures k * (d + 1) == k * d + k && (k - 1) * (d + 1) == k * d - d + k - 1
  {
  }

  lemma StartsInWindows(p: Policy, k: nat)
    requires k >= 1 && p.windowDuration >= 0
    ensures var s := Starts(p, k * p.windowDuration); s <= k && (s == k <==> p.windowDuration >= k - 1)
    ensures var s := Starts(p, k * p.windowDuration - 1); s <= k && (s == k <==> p.windowDuration >= k)
  {
    var span := k * p.windowDuration;
    WindowsAndGaps(k, p.windowDuration);
    StartsAtLeast(p, span, k + 1);
    StartsAtLeast(p, span, k);
    StartsAtLeast(p, span - 1, k + 1);
    StartsAtLeast(p, span - 1, k);
  }

  /**
   Hence fewer than (k+1) * max(1, limit) requests of one IP are granted within any closed interval of
   k window lengths.
   */
  lemma RateBound(p: Policy, calls: seq<Call>, ip: string, lo: int, k: nat)
    requires Chronological(calls) && p.windowDuration >= 0 && k >= 1
    ensures |AnswersTo(p, map[], calls, ip)| == |Times(calls, ip)|
    ensures Granted(Times(calls, ip), AnswersTo(p, map[], calls, ip), lo, lo + k * p.windowDuration)
            < (k + 1) * Max(1, p.maxRequests)
  {
    assert k * p.windowDuration >= 0;
    GrantsAreBounded(p, calls, ip, lo, lo + k * p.windowDuration);
    StartsInWindows(p, k);
    QuotaTimes(p, Starts(p, k * p.windowDuration), k);
    QuotaTimes(p, Starts(p, k * p.windowDuration - 1), k);
  }

  // ----- The bound is attained -----

  lemma {:induction false} GrantedSplits(t1: seq<int>, a1: seq<bool>, t2: seq<int>, a2: seq<bool>, lo: int, hi: int)
    requires |t1| == |a1| && |t2| == |a2|
    ensures Granted(t1 + t2, a1 + a2, lo, hi) == Granted(t1, a1, lo, hi) + Granted(t2, a2, lo, hi)
  {
    if t1 == [] {
      assert t1 + t2 == t2 && a1 + a2 == a2;
    } else {
      assert (t1 + t2)[1..] == t1[1..] + t2 && (a1 + a2)[1..] == a1[1..] + a2;
      GrantedSplits(t1[1..], a1[1..], t2, a2, lo, hi);
    }
  }

  lemma {:induction false} GrantedWithin(t: int, n: nat, lo: int, hi: int)
    requires lo <= t <= hi
    ensures Granted(Repeat(t, n), Repeat(true, n), lo, hi) == n
  {
    if n > 0 {
      assert Repeat(t, n)[1..] == Repeat(t, n - 1) && Repeat(true, n)[1..] == Repeat(true, n - 1);
      GrantedWithin(t, n - 1, lo, hi);
    }
  }

  /** Requests that still fit into a live window are all granted. */
  lemma {:induction false} BurstGranted(p: Policy, w: Window, t: int, n: nat, rest: seq<int>)
    requires t <= w.expiry && (n == 0 || w.count + n <= p.maxRequests)
    ensures SoloAnswers(p, Some(w), Repeat(t, n) + rest)
            == Repeat(true, n) + SoloAnswers(p, Some(Window(w.count + n, w.expiry)), rest)
    decreases n
  {
    if n == 0 {
      assert Repeat(t, n) + rest == rest;
    } else {
      assert (Repeat(t, n) + rest)[1..] == Repeat(t, n - 1) + rest;
      BurstGranted(p, w.(count := w.count + 1), t, n - 1, rest);
      assert [true] + Repeat(true, n - 1) == Repeat(true, n);
    }
  }

  /** n full windows, one after the other, from time t on. */
  function Bursts(p: Policy, t: int, n: nat): seq<int>
    decreases n
  {
    if n == 0 then [] else [t] + (Repeat(t, Quota(p) - 1) + Bursts(p, t + p.windowDuration + 1, n - 1))
  }

  lemma {:induction false} BurstsAreSorted(p: Policy, t: int, n: nat)
    requires p.windowDuration >= 0
    ensures Sorted(Bursts(p, t, n)) && forall x :: x in Bursts(p, t, n) ==> t <= x
    decreases n
  {
    if n > 0 {
      var later := Bursts(p, t + p.windowDuration + 1, n - 1);
      BurstsAreSorted(p, t + p.windowDuration + 1, n - 1);
      SortedAfterBurst(t, Quota(p) - 1, later);
      SortedAfterBurst(t, 1, Repeat(t, Quota(p) - 1) + later);
      assert Repeat(t, 1) == [t];
    }
  }

  lemma SortedAfterBurst(t: int, n: nat, later: seq<int>)
    requires Sorted(later) && forall x :: x in later ==> t <= x
    ensures Sorted(Repeat(t, n) + later) && forall x :: x in Repeat(t, n) + later ==> t <= x
  {
    var all := Repeat(t, n) + later;
    forall i, j | 0 <= i < j < |all| ensures all[i] <= all[j] {
      if i < n && n <= j {
        assert all[j] == later[j - n] && later[j - n] in later;
      }
    }
  }

  lemma LastBurst(n: nat, d: nat)
    requires n >= 1
    ensures 0 <= (n - 1) * d && (n >= 2 ==> (n - 1) * d == (n - 2) * d + d)
  {
  }

  /** A burst fills a window. */
  lemma OneBurst(p: Policy, w: Option<Window>, t: int, later: seq<int>, lo: int, hi: int)
    requires p.windowDuration >= 0 && !Live(w, t) && lo <= t <= hi
    ensures var times := [t] + (Repeat(t, Quota(p) - 1) + later);
            Granted(times, SoloAnswers(p, w, times), lo, hi)
            == Quota(p) + Granted(later, SoloAnswers(p, Some(Window(Quota(p), t + p.windowDuration)), later), lo, hi)
  {
    var m := Quota(p) - 1;
    var times := [t] + (Repeat(t, m) + later);
    var answers := SoloAnswers(p, Some(Window(Quota(p), t + p.windowDuration)), later);
    BurstGranted(p, Window(1, t + p.windowDuration), t, m, later);
    GrantedWithin(t, m, lo, hi);
    GrantedSplits(Repeat(t, m), Repeat(true, m), later, answers, lo, hi);
    assert times[1..] == Repeat(t, m) + later;
    assert SoloAnswers(p, w, times)[1..] == Repeat(true, m) + answers;
  }

  lemma {:induction false} BurstsAllGranted(p: Policy, w: Option<Window>, t: int, n: nat, lo: int, hi: int)
    requires p.windowDuration >= 0 && !Live(w, t) && lo <= t
    requires n >= 1 ==> t + (n - 1) * (p.windowDuration + 1) <= hi
    ensures Granted(Bursts(p, t, n), SoloAnswers(p, w, Bursts(p, t, n)), lo, hi) == n * Quota(p)
    decreases n
  {
    if n > 0 {
      var d1 := p.windowDuration + 1;
      LastBurst(n, d1);
      BurstsAllGranted(p, Some(Window(Quota(p), t + p.windowDuration)), t + d1, n - 1, lo, hi);
      OneBurst(p, w, t, Bursts(p, t + d1, n - 1), lo, hi);
      QuotaTimes(p, n - 1, n);
    }
  }

  /** One request that opens a window before the interval, the rest of that window at its end, then n full windows. */
  function Straddling(p: Policy, n: nat): seq<int> {
    [0] + (Repeat(p.windowDuration, Quota(p) - 1) + Bursts(p, p.windowDuration + 1, n))
  }

  lemma StraddlingIsSorted(p: Policy, n: nat)
    requires p.windowDuration >= 0
    ensures Sorted(Straddling(p, n))
  {
    var d := p.windowDuration;
    BurstsAreSorted(p, d + 1, n);
    SortedAfterBurst(d, Quota(p) - 1, Bursts(p, d + 1, n));
    SortedAfterBurst(0, 1, Repeat(d, Quota(p) - 1) + Bursts(p, d + 1, n));
    assert Repeat(0, 1) == [0];
  }

  lemma StraddlingIsGranted(p: Policy, n: nat, hi: int)
    requires p.windowDuration >= 1 && p.windowDuration <= hi
    requires n >= 1 ==> p.windowDuration + 1 + (n - 1) * (p.windowDuration + 1) <= hi
    ensures Granted(Straddling(p, n), SoloAnswers(p, None, Straddling(p, n)), p.windowDuration, hi) == Quota(p) - 1 + n * Quota(p)
  {
    var d, m := p.windowDuration, Quota(p) - 1;
    var later := Bursts(p, d + 1, n);
    var w := Window(Quota(p), d);
    BurstsAllGranted(p, Some(w), d + 1, n, d, hi);
    BurstGranted(p, Window(1, d), d, m, later);
    GrantedWithin(d, m, d, hi);
    GrantedSplits(Repeat(d, m), Repeat(true, m), later, SoloAnswers(p, Some(w), later), d, hi);
    var times := Straddling(p, n);
    assert times[1..] == Repeat(d, m) + later;
    assert SoloAnswers(p, None, times) == [true] + (Repeat(true, m) + SoloAnswers(p, Some(w), later));
  }

  /** A run in which one IP asks at these times. */
  function CallsAt(ip: string, times: seq<int>): seq<Call> {
    seq(|times|, i requires 0 <= i < |times| => Request(ip, times[i]))
  }

  lemma {:induction false} TimesOfCalls(ip: string, times: seq<int>)
    ensures Times(CallsAt(ip, times), ip) == times
  {
    if times != [] {
      assert CallsAt(ip, times)[1..] == CallsAt(ip, times[1..]);
      TimesOfCalls(ip, times[1..]);
    }
  }

  lemma FullWindowsReach(p: Policy, span: nat)
    requires p.windowDuration >= 0
    ensures var times := Bursts(p, 0, Starts(p, span));
            Sorted(times) && Granted(times, SoloAnswers(p, None, times), 0, span) == Starts(p, span) * Quota(p)
  {
    StartsAtLeast(p, span, Starts(p, span));
    BurstsAllGranted(p, None, 0, Starts(p, span), 0, span);
    BurstsAreSorted(p, 0, Starts(p, span));
  }

  lemma StraddlingReaches(p: Policy, span: nat)
    requires p.windowDuration >= 1
    ensures var times := Straddling(p, Starts(p, span - 1));
            Sorted(times) && Granted(times, SoloAnswers(p, None, times), p.windowDuration, p.windowDuration + span)
                             == Quota(p) - 1 + Starts(p, span - 1) * Quota(p)
  {
    var more := Starts(p, span - 1);
    if more >= 1 {
      StartsAtLeast(p, span - 1, more);
    }
    StraddlingIsGranted(p, more, p.windowDuration + span);
    StraddlingIsSorted(p, more);
  }

  lemma CallsAnswered(p: Policy, ip: string, times: seq<int>)
    requires Sorted(times)
    ensures Chronological(CallsAt(ip, times)) && Times(CallsAt(ip, times), ip) == times
    ensures AnswersTo(p, map[], CallsAt(ip, times), ip) == SoloAnswers(p, None, times)
  {
    TimesOfCalls(ip, times);
    CleanupAndOtherClientsAreInvisible(p, CallsAt(ip, times), ip);
  }

  /** For every interval length there is a run that reaches the bound. */
  lemma GrantsReachTheBound(p: Policy, ip: string, span: nat) returns (calls: seq<Call>, lo: int)
    requires p.windowDuration >= 0
    ensures Chronological(calls) && |AnswersTo(p, map[], calls, ip)| == |Times(calls, ip)|
    ensures Granted(Times(calls, ip), AnswersTo(p, map[], calls, ip), lo, lo + span) == MostGranted(p, span)
  {
    var times;
    if p.windowDuration == 0 || Starts(p, span) * Quota(p) >= Quota(p) - 1 + Starts(p, span - 1) * Quota(p) {
      times, lo := Bursts(p, 0, Starts(p, span)), 0;
      FullWindowsReach(p, span);
    } else {
      times, lo := Straddling(p, Starts(p, span - 1)), p.windowDuration;
      StraddlingReaches(p, span);
    }
    calls := CallsAt(ip, times);
    CallsAnswered(p, ip, times);
  }

  /**
   The bound of RateBound is reached, less the one, if and only if the window is at least k nanoseconds
   long, or the limit is one and the window at least k - 1.
   */
  lemma RateBoundIsSharpIff(p: Policy, k: nat)
    requires k >= 1 && p.windowDuration >= 0
    ensures k * p.windowDuration >= 0
    ensures MostGranted(p, k * p.windowDuration) == (k + 1) * Quota(p) - 1
            <==> p.windowDuration >= k || (Quota(p) == 1 && p.windowDuration >= k - 1)
  {
    assert k * p.windowDuration >= 0;
    var full, more := Starts(p, k * p.windowDuration), Starts(p, k * p.windowDuration - 1);
    StartsInWindows(p, k);
    Short(full, k, Quota(p));
    Short(more, k, Quota(p));
  }

  /** n full windows out of k fall short of k + 1 of them less one request, unless nothing is missing. */
  lemma Short(n: nat, k: nat, q: int)
    requires n <= k && q >= 1
    ensures n * q <= k * q && (k + 1) * q == k * q + q && (n < k ==> n * q <= k * q - q)
  {
    if n < k {
      assert n * q <= (k - 1) * q;
    }
  }

  // ----- Nobody within the limit is refused -----

  function Asked(times: seq<int>, lo: int, hi: int): nat {
    if times == [] then 0 else (if lo <= times[0] <= hi then 1 else 0) + Asked(times[1..], lo, hi)
  }

  /** Requests within one window length from lo on. */
  function AskedFrom(p: Policy, times: seq<int>, lo: int): nat {
    Asked(times, lo, lo + p.windowDuration)
  }

  lemma {:induction false} AskedSplits(a: seq<int>, b: seq<int>, lo: int, hi: int)
    ensures Asked(a + b, lo, hi) == Asked(a, lo, hi) + Asked(b, lo, hi)
  {
    if a == [] {
      assert a + b == b;
    } else {
      assert (a + b)[1..] == a[1..] + b;
      AskedSplits(a[1..], b, lo, hi);
    }
  }

  lemma {:induction false} AskedAll(a: seq<int>, lo: int, hi: int)
    requires forall t :: t in a ==> lo <= t <= hi
    ensures Asked(a, lo, hi) == |a|
  {
    if a != [] {
      assert a[0] in a && forall t :: t in a[1..] ==> t in a;
      AskedAll(a[1..], lo, hi);
    }
  }

  /** past ends with the requests of the current window. */
  ghost predicate WindowCovers(p: Policy, past: seq<int>, w: Option<Window>) {
    w.Some? ==>
      && 1 <= w.value.count <= |past|
      && forall i :: |past| - w.value.count <= i < |past| ==> w.value.expiry - p.windowDuration <= past[i] <= w.value.expiry
  }

  /** The requests of a live window all fall within one window length, so there are fewer than the limit. */
  lemma CurrentWindowHasRoom(p: Policy, past: seq<int>, w: Window, t: int, rest: seq<int>)
    requires Sorted((past + [t]) + rest) && p.windowDuration >= 0 && WindowCovers(p, past, Some(w)) && t <= w.expiry
    requires forall lo :: AskedFrom(p, (past + [t]) + rest, lo) <= p.maxRequests
    ensures w.count + 1 <= p.maxRequests
    ensures past[|past| - 1] <= t
  {
    var all := (past + [t]) + rest;
    var past' := past + [t];
    var lo := w.expiry - p.windowDuration;
    var earlier, current := past'[..|past'| - w.count - 1], past'[|past'| - w.count - 1..];
    assert past' == earlier + current;
    assert all[|past| - 1] <= all[|past|];
    forall x | x in current ensures lo <= x <= w.expiry {
      var i :| 0 <= i < |current| && current[i] == x;
      assert x == past'[|past'| - w.count - 1 + i];
    }
    AskedAll(current, lo, lo + p.windowDuration);
    AskedSplits(earlier, current, lo, lo + p.windowDuration);
    AskedSplits(past', rest, lo, lo + p.windowDuration);
    assert AskedFrom(p, all, lo) >= w.count + 1;
  }

  lemma {:induction false} NoRefusalWithinLimit(p: Policy, past: seq<int>, w: Option<Window>, times: seq<int>)
    requires Sorted(past + times) && p.windowDuration >= 0
    requires WindowCovers(p, past, w)
    requires forall lo :: AskedFrom(p, past + times, lo) <= p.maxRequests
    ensures forall i :: 0 <= i < |times| ==> SoloAnswers(p, w, times)[i]
    decreases times
  {
    if times != [] {
      var t := times[0];
      var past', rest := past + [t], times[1..];
      assert past' + rest == past + times;
      if Live(w, t) {
        CurrentWindowHasRoom(p, past, w.value, t, rest);
      }
      NoRefusalWithinLimit(p, past', Some(Renew(p, w, t)), rest);
    }
  }

  /** An IP that asks at most limit times within any window length is always let through, in every run. */
  lemma WithinLimitNeverRefused(p: Policy, calls: seq<Call>, ip: string)
    requires Chronological(calls) && p.windowDuration >= 0
    requires forall lo :: AskedFrom(p, Times(calls, ip), lo) <= p.maxRequests
    ensures forall i :: 0 <= i < |AnswersTo(p, map[], calls, ip)| ==> AnswersTo(p, map[], calls, ip)[i]
  {
    CleanupAndOtherClientsAreInvisible(p, calls, ip);
    TimesAreSorted(calls, ip);
    var times := Times(calls, ip);
    assert [] + times == times;
    NoRefusalWithinLimit(p, [], None, times);
  }
}
