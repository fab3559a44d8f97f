/**
 What the goroutines of the subprocess manager do in a run: nothing restarts when restarts are off, and
 what Start, Stop, Close and a monitor come to when nobody else moves.
 */
module ProcessRuns {
  import opened Common
  import opened ProcessManagement

  // ----- Restarts that are off -----

  /** The statements of a monitor that has decided to restart the process, or not to any more. */
  predicate Restarting(pc: Pc) {
    (pc.InMonitor? && (pc.watch.CountRestart? || pc.watch.GiveUp? || pc.watch.Announce? || pc.watch.Delay? || pc.watch.RetakeLock?
                       || pc.watch.RecheckClosed? || pc.watch.Abandon? || pc.watch.ReportFailed?))
    || (pc.InLaunch? && pc.o.ByMonitor?)
  }

  predicate Tells(th: Thread, e: Event) { th.sending != Quiet && th.sending.e == e }

  predicate NoRestart(s: State) {
    && s.g.autoStarts == 0 && s.g.restartCount == 0 && WillRestart !in s.g.queue && GaveUp !in s.g.queue
    && forall t :: t in s.threads ==>
         !Restarting(s.threads[t].pc) && !Tells(s.threads[t], WillRestart) && !Tells(s.threads[t], GaveUp)
  }

  lemma SendDoesNotRestart(g: Shared, pc: Pc, at: Sending)
    requires at != Quiet && at.e != WillRestart && at.e != GaveUp && WillRestart !in g.queue && GaveUp !in g.queue
    ensures var e := SendStep(g, pc, at);
            e.Next? ==> WillRestart !in e.g.queue && GaveUp !in e.g.queue && e.g == g.(queue := e.g.queue, panicked := e.g.panicked)
                        && e.th.pc == pc && (e.th.sending == Quiet || e.th.sending.e == at.e)
  {
  }

  /** A statement that neither restarts anything nor speaks of it. */
  predicate Harmless(g: Shared, g': Shared, th': Thread) {
    && g'.autoStarts == g.autoStarts && g'.restartCount == g.restartCount && g'.queue == g.queue && g'.config == g.config
    && !Restarting(th'.pc) && !Tells(th', WillRestart) && !Tells(th', GaveUp)
  }

  lemma MonitorDoesNotRestart(g: Shared, t: Tid, at: WatchAt, choice: bool)
    requires !g.config.restartOnFailure && !Restarting(InMonitor(at))
    ensures var e := WatchStep(g, t, at, choice); e.Next? ==> Harmless(g, e.g, e.th)
  {
  }

  lemma StopDoesNotRestart(g: Shared, t: Tid, k: Continuation, at: StopAt, choice: bool)
    ensures var e := StopStep(g, t, k, at, choice); e.Next? ==> Harmless(g, e.g, e.th)
  {
  }

  lemma StartDoesNotRestart(g: Shared, t: Tid, at: StartAt)
    ensures var e := StartStep(g, t, at); e.Next? ==> Harmless(g, e.g, e.th)
  {
  }

  lemma LaunchDoesNotRestart(g: Shared, at: LaunchAt, choice: bool)
    ensures var e := LaunchStep(g, ByCaller, at, choice); e.Next? ==> Harmless(g, e.g, e.th)
  {
  }

  lemma CloseDoesNotRestart(g: Shared, t: Tid, at: CloseAt)
    ensures var e := CloseStep(g, t, at); e.Next? ==> Harmless(g, e.g, e.th)
  {
  }

  lemma StatementDoesNotRestart(g: Shared, t: Tid, th: Thread, choice: bool)
    requires !g.config.restartOnFailure && !Restarting(th.pc) && th.sending == Quiet
    ensures var e := Execute1(g, t, th, choice); e.Next? ==> Harmless(g, e.g, e.th)
  {
    var e := Execute1(g, t, th, choice);
    if e.Next? {
      assert Harmless(g, e.g, e.th) by {
        match th.pc
        case InStart(at) => StartDoesNotRestart(g, t, at);
        case InLaunch(o, at) => LaunchDoesNotRestart(g, at, choice);
        case InStop(k, at) => StopDoesNotRestart(g, t, k, at, choice);
        case InClose(at) => CloseDoesNotRestart(g, t, at);
        case InMonitor(at) => MonitorDoesNotRestart(g, t, at, choice);
      }
    }
  }

  lemma StepDoesNotRestart(s: State, step: Step)
    requires NoRestart(s) && !s.g.config.restartOnFailure && Do(s, step).Some?
    ensures NoRestart(Do(s, step).value) && Do(s, step).value.g.config == s.g.config
  {
    match step
    case Receive =>
    case Enter(_, _) =>
    case Act(t, choice, _) =>
      var th := s.threads[t];
      if th == Thread(End, Quiet) {
      } else if th.sending == Quiet {
        StatementDoesNotRestart(s.g, t, th, choice);
      } else {
        SendDoesNotRestart(s.g, th.pc, th.sending);
      }
  }

  lemma {:induction false} RunDoesNotRestart(s: State, steps: seq<Step>)
    requires NoRestart(s) && !s.g.config.restartOnFailure && Exec(s, steps).Some?
    ensures NoRestart(Exec(s, steps).value)
    decreases steps
  {
    if steps != [] {
      StepDoesNotRestart(s, steps[0]);
      RunDoesNotRestart(Do(s, steps[0]).value, steps[1..]);
    }
  }

  /**
   With RestartOnFailure off, in every interleaving, no monitor ever counts a restart, calls startLocked or
   is about to; and no restart is ever announced, or given up.
   */
  lemma NothingRestartsWhenOff(c: Config, steps: seq<Step>)
    requires Exec(Init(c), steps).Some? && !c.restartOnFailure
    ensures var s := Exec(Init(c), steps).value;
            && s.g.autoStarts == 0 && s.g.restartCount == 0
            && (forall t :: t in s.threads && s.threads[t].pc.InLaunch? ==> s.threads[t].pc.o == ByCaller)
            && WillRestart !in s.g.queue && GaveUp !in s.g.queue
            && (forall t :: t in s.threads && s.threads[t].sending != Quiet ==>
                  s.threads[t].sending.e != WillRestart && s.threads[t].sending.e != GaveUp)
  {
    RunDoesNotRestart(Init(c), steps);
    var s := Exec(Init(c), steps).value;
    forall t | t in s.threads
      ensures (s.threads[t].pc.InLaunch? ==> s.threads[t].pc.o == ByCaller)
              && (s.threads[t].sending != Quiet ==> s.threads[t].sending.e != WillRestart && s.threads[t].sending.e != GaveUp)
    {
      assert !Restarting(s.threads[t].pc) && !Tells(s.threads[t], WillRestart) && !Tells(s.threads[t], GaveUp);
    }
  }

  // ----- One goroutine alone -----

  /** The state in which goroutine t is th. */
  function With(threads: map<Tid, Thread>, t: Tid, g: Shared, th: Thread): State { State(g, threads[t := th]) }

  predicate OnlyMoves(steps: seq<Step>, t: Tid) { forall i :: 0 <= i < |steps| ==> steps[i].Act? && steps[i].t == t }

  /** Any n steps of t alone lead from s to s', whatever the environment decides. */
  ghost predicate Takes(s: State, t: Tid, n: nat, s': State) {
    forall steps :: |steps| == n && OnlyMoves(steps, t) ==> Exec(s, steps) == Some(s')
  }

  /** Left alone, t gets from g and th to g' and th', whatever the environment decides and whatever the others are at. */
  ghost predicate Leads(threads: map<Tid, Thread>, t: Tid, g: Shared, th: Thread, g': Shared, th': Thread) {
    exists n :: Takes(With(threads, t, g, th), t, n, With(threads, t, g', th'))
  }

  lemma {:induction false} ExecSplits(s: State, steps: seq<Step>, k: nat)
    requires k <= |steps| && Exec(s, steps[..k]).Some?
    ensures Exec(s, steps) == Exec(Exec(s, steps[..k]).value, steps[k..])
    decreases k
  {
    if k == 0 {
      assert steps[..0] == [] && steps[0..] == steps;
    } else {
      assert steps[..k][0] == steps[0] && steps[..k][1..] == steps[1..][..k - 1] && steps[k..] == steps[1..][k - 1..];
      ExecSplits(Do(s, steps[0]).value, steps[1..], k - 1);
    }
  }

  lemma TakesMore(s: State, t: Tid, a: nat, s1: State, b: nat, s2: State)
    requires Takes(s, t, a, s1) && Takes(s1, t, b, s2)
    ensures Takes(s, t, a + b, s2)
  {
    forall steps: seq<Step> | |steps| == a + b && OnlyMoves(steps, t) ensures Exec(s, steps) == Some(s2) {
      assert OnlyMoves(steps[..a], t) && OnlyMoves(steps[a..], t);
      assert Exec(s, steps[..a]) == Some(s1) && Exec(s1, steps[a..]) == Some(s2);
      ExecSplits(s, steps, a);
    }
  }

  lemma Chain(threads: map<Tid, Thread>, t: Tid, g: Shared, th: Thread, g1: Shared, th1: Thread, g2: Shared, th2: Thread)
    requires Leads(threads, t, g, th, g1, th1) && Leads(threads, t, g1, th1, g2, th2)
    ensures Leads(threads, t, g, th, g2, th2)
  {
    var a: nat :| Takes(With(threads, t, g, th), t, a, With(threads, t, g1, th1));
    var b: nat :| Takes(With(threads, t, g1, th1), t, b, With(threads, t, g2, th2));
    TakesMore(With(threads, t, g, th), t, a, With(threads, t, g1, th1), b, With(threads, t, g2, th2));
  }

  lemma OneMove(threads: map<Tid, Thread>, t: Tid, g: Shared, th: Thread, g': Shared, th': Thread)
    requires th != Thread(End, Quiet) && !Spawns(th) && Execute1(g, t, th, true) == Next(g', th') && Execute1(g, t, th, false) == Next(g', th')
    ensures Leads(threads, t, g, th, g', th')
  {
    var s, s' := With(threads, t, g, th), With(threads, t, g', th');
    assert s.threads[t := th'] == s'.threads;
    forall steps: seq<Step> | |steps| == 1 && OnlyMoves(steps, t) ensures Exec(s, steps) == Some(s') {
      var step := steps[0];
      assert step.Act? && step.t == t && steps[1..] == [];
      assert Execute1(g, t, th, step.choice) == Next(g', th');
      assert Do(s, step) == Some(s');
    }
    assert Takes(s, t, 1, s');
  }

  // ----- Sending an event -----

  /** The channel with the event at its end; if it was full, the oldest event makes room. */
  function Sent(queue: seq<Event>, e: Event): seq<Event> { (if |queue| < 16 then queue else queue[1..]) + [e] }

  /** An event that is sent is in the channel afterwards. */
  lemma SendLeads(threads: map<Tid, Thread>, t: Tid, g: Shared, pc: Pc, e: Event)
    requires !g.queueClosed && |g.queue| <= 16
    ensures Leads(threads, t, g, Thread(pc, Offer(e)), g.(queue := Sent(g.queue, e)), Thread(pc, Quiet))
  {
    var done := Thread(pc, Quiet);
    if |g.queue| < 16 {
      OneMove(threads, t, g, Thread(pc, Offer(e)), g.(queue := g.queue + [e]), done);
    } else {
      var g1 := g.(queue := g.queue[1..]);
      OneMove(threads, t, g, Thread(pc, Offer(e)), g, Thread(pc, Evict(e)));
      OneMove(threads, t, g, Thread(pc, Evict(e)), g1, Thread(pc, Reoffer(e)));
      OneMove(threads, t, g1, Thread(pc, Reoffer(e)), g1.(queue := g1.queue + [e]), done);
      Chain(threads, t, g, Thread(pc, Offer(e)), g, Thread(pc, Evict(e)), g1, Thread(pc, Reoffer(e)));
      Chain(threads, t, g, Thread(pc, Offer(e)), g1, Thread(pc, Reoffer(e)), g1.(queue := g1.queue + [e]), done);
    }
  }

  // ----- What becomes of a process that exits -----

  function Watching(at: WatchAt): Thread { Thread(InMonitor(at), Quiet) }

  const DONE := Thread(End, Quiet)

  lemma MoveThen(threads: map<Tid, Thread>, t: Tid, g: Shared, th: Thread, g1: Shared, th1: Thread, g2: Shared, th2: Thread)
    requires th != Thread(End, Quiet) && !Spawns(th) && Execute1(g, t, th, true) == Next(g1, th1) && Execute1(g, t, th, false) == Next(g1, th1)
    requires Leads(threads, t, g1, th1, g2, th2)
    ensures Leads(threads, t, g, th, g2, th2)
  {
    OneMove(threads, t, g, th, g1, th1);
    Chain(threads, t, g, th, g1, th1, g2, th2);
  }

  lemma SendThen(threads: map<Tid, Thread>, t: Tid, g: Shared, pc: Pc, e: Event, g2: Shared, th2: Thread)
    requires !g.queueClosed && |g.queue| <= 16
    requires Leads(threads, t, g.(queue := Sent(g.queue, e)), Thread(pc, Quiet), g2, th2)
    ensures Leads(threads, t, g, Thread(pc, Offer(e)), g2, th2)
  {
    SendLeads(threads, t, g, pc, e);
    Chain(threads, t, g, Thread(pc, Offer(e)), g.(queue := Sent(g.queue, e)), Thread(pc, Quiet), g2, th2);
  }

  /** The monitor learns whether the exit was asked for, and forgets the process. */
  lemma ExitIsSeen(threads: map<Tid, Thread>, t: Tid, g: Shared)
    requires g.lock.None?
    ensures Leads(threads, t, g, Watching(AwaitProcess), g.(hasProcess := false), Watching(Judge(g.status == Stopping)))
  {
    var w := g.status == Stopping;
    var g1 := g.(lock := Some(t));
    var g2 := g1.(hasProcess := false);
    var g3 := g.(hasProcess := false);
    OneMove(threads, t, g2, Watching(WatchAt.DropLock(w)), g3, Watching(Judge(w)));
    MoveThen(threads, t, g1, Watching(CleanUp), g2, Watching(WatchAt.DropLock(w)), g3, Watching(Judge(w)));
    MoveThen(threads, t, g, Watching(WatchAt.TakeLock), g1, Watching(CleanUp), g3, Watching(Judge(w)));
    MoveThen(threads, t, g, Watching(AwaitProcess), g, Watching(WatchAt.TakeLock), g3, Watching(Judge(w)));
  }

  /** The process exits while nobody holds the mutex or has closed the event channel. */
  predicate Exits(g: Shared) { g.lock.None? && !g.queueClosed && |g.queue| <= 16 }

  /** An exit that was asked for, by Stop or by Close, is reported as a stop; nothing restarts. */
  lemma AskedExitStops(threads: map<Tid, Thread>, t: Tid, g: Shared)
    requires Exits(g) && (g.status == Stopping || g.closed)
    ensures Leads(threads, t, g, Watching(AwaitProcess),
                  g.(hasProcess := false, status := Stopped, queue := Sent(g.queue, HasStopped)), DONE)
  {
    var w := g.status == Stopping;
    var g1 := g.(hasProcess := false);
    var g2 := g1.(status := Stopped);
    var g3 := g2.(queue := Sent(g.queue, HasStopped));
    SendLeads(threads, t, g2, End, HasStopped);
    MoveThen(threads, t, g1, Watching(ReportStopped), g2, Thread(End, Offer(HasStopped)), g3, DONE);
    MoveThen(threads, t, g1, Watching(Judge(w)), g1, Watching(ReportStopped), g3, DONE);
    ExitIsSeen(threads, t, g);
    Chain(threads, t, g, Watching(AwaitProcess), g1, Watching(Judge(w)), g3, DONE);
  }

  /** An exit that was not asked for is reported as a failure before anything else. */
  lemma UnaskedExitIsReported(threads: map<Tid, Thread>, t: Tid, g: Shared)
    requires Exits(g) && g.status != Stopping && !g.closed
    ensures Leads(threads, t, g, Watching(AwaitProcess), g.(hasProcess := false, queue := Sent(g.queue, HasFailed)), Watching(CheckPolicy))
  {
    var g1 := g.(hasProcess := false);
    var g2 := g1.(queue := Sent(g.queue, HasFailed));
    SendLeads(threads, t, g1, InMonitor(CheckPolicy), HasFailed);
    MoveThen(threads, t, g1, Watching(Judge(false)), g1, Thread(InMonitor(CheckPolicy), Offer(HasFailed)), g2, Watching(CheckPolicy));
    ExitIsSeen(threads, t, g);
    Chain(threads, t, g, Watching(AwaitProcess), g1, Watching(Judge(false)), g2, Watching(CheckPolicy));
  }

  /** With restarts off, that is all: the process has failed. */
  lemma UnaskedExitFails(threads: map<Tid, Thread>, t: Tid, g: Shared)
    requires Exits(g) && g.status != Stopping && !g.closed && !g.config.restartOnFailure
    ensures Leads(threads, t, g, Watching(AwaitProcess),
                  g.(hasProcess := false, status := Failed, queue := Sent(g.queue, HasFailed)), DONE)
  {
    var g2 := g.(hasProcess := false, queue := Sent(g.queue, HasFailed));
    UnaskedExitIsReported(threads, t, g);
    OneMove(threads, t, g2, Watching(CheckPolicy), g2.(status := Failed), DONE);
    Chain(threads, t, g, Watching(AwaitProcess), g2, Watching(CheckPolicy), g2.(status := Failed), DONE);
  }

  /** With restarts on but used up, it has failed for good, and that is said. */
  lemma UnaskedExitGivesUp(threads: map<Tid, Thread>, t: Tid, g: Shared)
    requires Exits(g) && g.status != Stopping && !g.closed && g.config.restartOnFailure && 0 < g.config.maxRestarts <= g.restartCount
    ensures Leads(threads, t, g, Watching(AwaitProcess),
                  g.(hasProcess := false, status := Failed, restartCount := g.restartCount + 1,
                     queue := Sent(Sent(g.queue, HasFailed), GaveUp)), DONE)
  {
    var g2 := g.(hasProcess := false, queue := Sent(g.queue, HasFailed));
    var g3 := g2.(restartCount := g.restartCount + 1);
    var g4 := g3.(status := Failed);
    var g5 := g4.(queue := Sent(g3.queue, GaveUp));
    SendLeads(threads, t, g4, End, GaveUp);
    MoveThen(threads, t, g3, Watching(GiveUp), g4, Thread(End, Offer(GaveUp)), g5, DONE);
    MoveThen(threads, t, g2, Watching(CountRestart), g3, Watching(GiveUp), g5, DONE);
    MoveThen(threads, t, g2, Watching(CheckPolicy), g2, Watching(CountRestart), g5, DONE);
    UnaskedExitIsReported(threads, t, g);
    Chain(threads, t, g, Watching(AwaitProcess), g2, Watching(CheckPolicy), g5, DONE);
  }

  /** Otherwise the monitor announces a restart and waits. */
  lemma UnaskedExitWaits(threads: map<Tid, Thread>, t: Tid, g: Shared)
    requires Exits(g) && g.status != Stopping && !g.closed && g.config.restartOnFailure
    requires g.config.maxRestarts <= 0 || g.restartCount < g.config.maxRestarts
    ensures var n := g.restartCount + 1;
            Leads(threads, t, g, Watching(AwaitProcess),
                  g.(hasProcess := false, restartCount := n, queue := Sent(Sent(g.queue, HasFailed), WillRestart)), Watching(Delay(n)))
  {
    var n := g.restartCount + 1;
    var g2 := g.(hasProcess := false, queue := Sent(g.queue, HasFailed));
    var g3 := g2.(restartCount := n);
    var g4 := g3.(queue := Sent(g3.queue, WillRestart));
    SendLeads(threads, t, g3, InMonitor(Delay(n)), WillRestart);
    MoveThen(threads, t, g3, Watching(Announce(n)), g3, Thread(InMonitor(Delay(n)), Offer(WillRestart)), g4, Watching(Delay(n)));
    MoveThen(threads, t, g2, Watching(CountRestart), g3, Watching(Announce(n)), g4, Watching(Delay(n)));
    MoveThen(threads, t, g2, Watching(CheckPolicy), g2, Watching(CountRestart), g4, Watching(Delay(n)));
    UnaskedExitIsReported(threads, t, g);
    Chain(threads, t, g, Watching(AwaitProcess), g2, Watching(CheckPolicy), g4, Watching(Delay(n)));
  }

  /**
   When the timer fires, a monitor that waits to restart is on its way into startLocked, with the mutex,
   unless the manager has been closed; when the context is cancelled first, or the manager closed, it
   gives up quietly.
   */
  lemma WaitingRestarts(threads: map<Tid, Thread>, t: Tid, g: Shared, n: nat)
    requires g.lock.None?
    ensures Execute1(g, t, Watching(Delay(n)), true) == Next(g, Watching(RetakeLock(n)))
    ensures Execute1(g, t, Watching(Delay(n)), false) == if g.cancelled then Next(g, Watching(Abandon)) else Blocked
    ensures Leads(threads, t, g, Watching(Abandon), g.(status := Stopped), DONE)
    ensures !g.closed ==>
              Leads(threads, t, g, Watching(RetakeLock(n)),
                    g.(lock := Some(t), launched := g.launched + {n}, autoStarts := g.autoStarts + 1), Thread(InLaunch(ByMonitor(n), SetStarting), Quiet))
    ensures g.closed ==> Leads(threads, t, g, Watching(RetakeLock(n)), g.(status := Stopped), DONE)
  {
    var g1 := g.(lock := Some(t));
    OneMove(threads, t, g, Watching(Abandon), g.(status := Stopped), DONE);
    if g.closed {
      MoveThen(threads, t, g1, Watching(RecheckClosed(n)), g, Watching(Abandon), g.(status := Stopped), DONE);
      MoveThen(threads, t, g, Watching(RetakeLock(n)), g1, Watching(RecheckClosed(n)), g.(status := Stopped), DONE);
    } else {
      var g2 := g1.(launched := g.launched + {n}, autoStarts := g.autoStarts + 1);
      var th := Thread(InLaunch(ByMonitor(n), SetStarting), Quiet);
      OneMove(threads, t, g1, Watching(RecheckClosed(n)), g2, th);
      MoveThen(threads, t, g, Watching(RetakeLock(n)), g1, Watching(RecheckClosed(n)), g2, th);
    }
  }

  // ----- Start -----

  function Launcher(o: Origin, at: LaunchAt): Thread { Thread(InLaunch(o, at), Quiet) }

  /** startLocked: the process is starting, and then it runs or has failed. */
  lemma LaunchTries(threads: map<Tid, Thread>, t: Tid, g: Shared, o: Origin)
    ensures Leads(threads, t, g, Launcher(o, SetStarting), g.(status := Starting), Launcher(o, LaunchAt.Execute))
    ensures Execute1(g, t, Launcher(o, LaunchAt.Execute), true) == Next(g.(status := Running, hasProcess := true), Launcher(o, CountMonitor))
    ensures Execute1(g, t, Launcher(o, LaunchAt.Execute), false) == Next(g.(status := Failed), Launcher(o, LaunchAt.DropLock(false)))
  {
    OneMove(threads, t, g, Launcher(o, SetStarting), g.(status := Starting), Launcher(o, LaunchAt.Execute));
  }

  /** If it has failed, the mutex is let go; a monitor reports the failure. */
  lemma LaunchFails(threads: map<Tid, Thread>, t: Tid, g: Shared, o: Origin)
    requires !g.queueClosed && |g.queue| <= 16
    ensures o == ByCaller ==> Leads(threads, t, g, Launcher(o, LaunchAt.DropLock(false)), g.(lock := None), DONE)
    ensures o != ByCaller ==>
              Leads(threads, t, g, Launcher(o, LaunchAt.DropLock(false)), g.(lock := None, status := Failed, queue := Sent(g.queue, HasFailed)), DONE)
  {
    var g1 := g.(lock := None);
    if o == ByCaller {
      OneMove(threads, t, g, Launcher(o, LaunchAt.DropLock(false)), g1, DONE);
    } else {
      var g2 := g1.(status := Failed);
      var g3 := g2.(queue := Sent(g.queue, HasFailed));
      SendLeads(threads, t, g2, End, HasFailed);
      MoveThen(threads, t, g1, Watching(ReportFailed), g2, Thread(End, Offer(HasFailed)), g3, DONE);
      MoveThen(threads, t, g, Launcher(o, LaunchAt.DropLock(false)), g1, Watching(ReportFailed), g3, DONE);
    }
  }

  /**
   If it runs, a monitor is counted before it is started; the start is reported and the mutex let go. The
   new monitor waits for the process.
   */
  lemma LaunchWatches(threads: map<Tid, Thread>, t: Tid, g: Shared, o: Origin, choice: bool, m: nat)
    requires !g.queueClosed && |g.queue| <= 16 && Monitor(m) !in threads && Monitor(m) != t
    ensures var counted := g.(waitGroup := g.waitGroup + 1);
            var watched := threads[Monitor(m) := Watching(ReadCmd)];
            var done := counted.(lock := None, queue := Sent(g.queue, HasStarted));
            && Leads(threads, t, g, Launcher(o, CountMonitor), counted, Launcher(o, SpawnMonitor))
            && Do(With(threads, t, counted, Launcher(o, SpawnMonitor)), Act(t, choice, m))
               == Some(With(watched, t, counted, Thread(InLaunch(o, LaunchAt.DropLock(true)), Offer(HasStarted))))
            && Leads(watched, t, counted, Thread(InLaunch(o, LaunchAt.DropLock(true)), Offer(HasStarted)), done, DONE)
            && (g.hasProcess ==> Leads(watched, Monitor(m), done, Watching(ReadCmd), done, Watching(AwaitProcess)))
  {
    var counted := g.(waitGroup := g.waitGroup + 1);
    var watched := threads[Monitor(m) := Watching(ReadCmd)];
    var sent := counted.(queue := Sent(g.queue, HasStarted));
    var last := Launcher(o, LaunchAt.DropLock(true));
    OneMove(threads, t, g, Launcher(o, CountMonitor), counted, Launcher(o, SpawnMonitor));
    Spawning(threads, t, counted, o, choice, m);
    OneMove(watched, t, sent, last, sent.(lock := None), DONE);
    SendThen(watched, t, counted, last.pc, HasStarted, sent.(lock := None), DONE);
    if g.hasProcess {
      OneMove(watched, Monitor(m), sent.(lock := None), Watching(ReadCmd), sent.(lock := None), Watching(AwaitProcess));
    }
  }

  lemma Spawning(threads: map<Tid, Thread>, t: Tid, g: Shared, o: Origin, choice: bool, m: nat)
    requires Monitor(m) !in threads && Monitor(m) != t
    ensures Do(With(threads, t, g, Launcher(o, SpawnMonitor)), Act(t, choice, m))
            == Some(With(threads[Monitor(m) := Watching(ReadCmd)], t, g, Thread(InLaunch(o, LaunchAt.DropLock(true)), Offer(HasStarted))))
  {
    var th := Thread(InLaunch(o, LaunchAt.DropLock(true)), Offer(HasStarted));
    var s := With(threads, t, g, Launcher(o, SpawnMonitor));
    assert s.threads[t := th][Monitor(m) := Watching(ReadCmd)] == threads[Monitor(m) := Watching(ReadCmd)][t := th];
  }

  /** A call of Start takes the mutex and launches the process, unless the manager is closed or has one. */
  lemma StartLaunches(threads: map<Tid, Thread>, t: Tid, g: Shared)
    requires g.lock.None?
    ensures var start := Thread(InStart(StartAt.TakeLock), Quiet);
            if g.closed || g.status == Running || g.status == Starting then Leads(threads, t, g, start, g, DONE)
            else Leads(threads, t, g, start, g.(lock := Some(t)), Thread(InLaunch(ByCaller, SetStarting), Quiet))
  {
    var g1 := g.(lock := Some(t));
    var start, check, look := Thread(InStart(StartAt.TakeLock), Quiet), Thread(InStart(StartAt.CheckClosed), Quiet), Thread(InStart(StartAt.CheckState), Quiet);
    if g.closed {
      OneMove(threads, t, g1, check, g, DONE);
      MoveThen(threads, t, g, start, g1, check, g, DONE);
    } else if g.status == Running || g.status == Starting {
      OneMove(threads, t, g1, look, g, DONE);
      MoveThen(threads, t, g1, check, g1, look, g, DONE);
      MoveThen(threads, t, g, start, g1, check, g, DONE);
    } else {
      var launch := Thread(InLaunch(ByCaller, SetStarting), Quiet);
      OneMove(threads, t, g1, look, g1, launch);
      MoveThen(threads, t, g1, check, g1, look, g1, launch);
      MoveThen(threads, t, g, start, g1, check, g1, launch);
    }
  }

  // ----- Stop, Restart and Close -----

  function Halting(k: Continuation, at: StopAt): Thread { Thread(InStop(k, at), Quiet) }

  /** Where a call goes on after its Stop: Restart only if that did not fail, Close in any case. */
  function After(k: Continuation, failed: bool): Thread {
    match k
    case Return => DONE
    case ThenStart => if failed then DONE else Halting(k, Pause)
    case ThenCancel => Thread(InClose(Cancel), Quiet)
  }

  /**
   Stop is refused by a closed manager and has nothing to do unless the process is running. A running one
   is marked as stopping and its stdin closed, before Stop waits for the exit; the mutex is free by then.
   */
  lemma StopStops(threads: map<Tid, Thread>, t: Tid, g: Shared, k: Continuation)
    requires g.lock.None?
    ensures var stop := Halting(k, StopAt.TakeLock);
            if g.closed then Leads(threads, t, g, stop, g, After(k, true))
            else if g.status != Running then Leads(threads, t, g, stop, g, After(k, false))
            else if !g.hasProcess then Leads(threads, t, g, stop, g.(status := Stopped), After(k, false))
            else Leads(threads, t, g, stop, g.(status := Stopping), Halting(k, AwaitExit))
  {
    var g1 := g.(lock := Some(t));
    var stop, check, look := Halting(k, StopAt.TakeLock), Halting(k, StopAt.CheckClosed), Halting(k, StopAt.CheckState);
    if g.closed {
      OneMove(threads, t, g1, check, g, After(k, true));
      MoveThen(threads, t, g, stop, g1, check, g, After(k, true));
    } else if g.status != Running {
      OneMove(threads, t, g1, look, g, After(k, false));
      MoveThen(threads, t, g1, check, g1, look, g, After(k, false));
      MoveThen(threads, t, g, stop, g1, check, g, After(k, false));
    } else {
      if g.hasProcess { RunningStops(threads, t, g, k); } else { NothingStops(threads, t, g, k); }
      var (end, last) := if g.hasProcess then (g.(status := Stopping), Halting(k, AwaitExit)) else (g.(status := Stopped), After(k, false));
      MoveThen(threads, t, g1, look, g1, Halting(k, SetStopping), end, last);
      MoveThen(threads, t, g1, check, g1, look, end, last);
      MoveThen(threads, t, g, stop, g1, check, end, last);
    }
  }

  lemma RunningStops(threads: map<Tid, Thread>, t: Tid, g: Shared, k: Continuation)
    requires g.lock.None? && g.hasProcess
    ensures Leads(threads, t, g.(lock := Some(t)), Halting(k, SetStopping), g.(status := Stopping), Halting(k, AwaitExit))
  {
    var g2 := g.(lock := Some(t), status := Stopping);
    var g3 := g.(status := Stopping);
    OneMove(threads, t, g2, Halting(k, CloseStdin), g3, Halting(k, AwaitExit));
    MoveThen(threads, t, g3, Halting(k, TakeLockAgain), g2, Halting(k, CloseStdin), g3, Halting(k, AwaitExit));
    MoveThen(threads, t, g2, Halting(k, StopAt.DropLock(true)), g3, Halting(k, TakeLockAgain), g3, Halting(k, AwaitExit));
    MoveThen(threads, t, g.(lock := Some(t)), Halting(k, SetStopping), g2, Halting(k, StopAt.DropLock(true)), g3, Halting(k, AwaitExit));
  }

  lemma NothingStops(threads: map<Tid, Thread>, t: Tid, g: Shared, k: Continuation)
    requires g.lock.None? && !g.hasProcess
    ensures Leads(threads, t, g.(lock := Some(t)), Halting(k, SetStopping), g.(status := Stopped), After(k, false))
  {
    var g2 := g.(lock := Some(t), status := Stopping);
    var g3 := g.(status := Stopping);
    OneMove(threads, t, g3, Halting(k, SetStopped), g.(status := Stopped), After(k, false));
    MoveThen(threads, t, g2, Halting(k, StopAt.DropLock(false)), g3, Halting(k, SetStopped), g.(status := Stopped), After(k, false));
    MoveThen(threads, t, g.(lock := Some(t)), Halting(k, SetStopping), g2, Halting(k, StopAt.DropLock(false)), g.(status := Stopped), After(k, false));
  }

  /** The wait for the exit fails only by the caller's context; Restart then goes on to Start, unless its context ends its pause. */
  lemma StopReturns(g: Shared, t: Tid, k: Continuation, contextDone: bool)
    ensures Execute1(g, t, Halting(k, AwaitExit), contextDone) == Next(g, After(k, contextDone))
    ensures Execute1(g, t, Halting(ThenStart, Pause), contextDone)
            == Next(g, if contextDone then DONE else Thread(InStart(StartAt.TakeLock), Quiet))
  {
  }

  /** Stop, and then the exit of the process that it waits for: the process has stopped and is not restarted. */
  lemma StoppedProcessStays(threads: map<Tid, Thread>, t: Tid, u: Tid, g: Shared, k: Continuation)
    requires Exits(g) && !g.closed && g.status == Running && g.hasProcess && t != u && u in threads && threads[u] == Watching(AwaitProcess)
    ensures Leads(threads, t, g, Halting(k, StopAt.TakeLock), g.(status := Stopping), Halting(k, AwaitExit))
    ensures var others := threads[t := Halting(k, AwaitExit)];
            Leads(others, u, g.(status := Stopping), others[u],
                  g.(hasProcess := false, status := Stopped, queue := Sent(g.queue, HasStopped)), DONE)
  {
    StopStops(threads, t, g, k);
    AskedExitStops(threads[t := Halting(k, AwaitExit)], u, g.(status := Stopping));
  }

  /**
   The first Close marks the manager closed and cancels its context; only then, and when the last monitor
   has signed off, does it close the event channel. It does not stop the process. Any later Close does
   nothing.
   */
  lemma CloseCloses(threads: map<Tid, Thread>, t: Tid, g: Shared)
    requires g.lock.None? && !g.queueClosed
    ensures var close := Thread(InClose(Mark), Quiet);
            var marked := g.(once := RunBy(t), closed := true, cancelled := true);
            && (g.once == Once.Done ==> Leads(threads, t, g, close, g, DONE))
            && (g.once == Unused && g.waitGroup != 0 ==>
                  Leads(threads, t, g, close, marked, Thread(InClose(AwaitMonitors), Quiet))
                  && forall choice :: Execute1(marked, t, Thread(InClose(AwaitMonitors), Quiet), choice) == Blocked)
            && (g.once == Unused && g.waitGroup == 0 ==> Leads(threads, t, g, close, marked.(queueClosed := true, once := Once.Done), DONE))
  {
    var close := Thread(InClose(Mark), Quiet);
    if g.once == Once.Done {
      OneMove(threads, t, g, close, g, DONE);
    } else if g.once == Unused {
      var wait := Thread(InClose(AwaitMonitors), Quiet);
      var marked := g.(once := RunBy(t), closed := true, cancelled := true);
      CloseMarks(threads, t, g);
      if g.waitGroup == 0 {
        var g1 := marked.(queueClosed := true);
        OneMove(threads, t, g1, Thread(InClose(Finish), Quiet), g1.(once := Once.Done), DONE);
        MoveThen(threads, t, marked, Thread(InClose(CloseEvents), Quiet), g1, Thread(InClose(Finish), Quiet), g1.(once := Once.Done), DONE);
        MoveThen(threads, t, marked, wait, marked, Thread(InClose(CloseEvents), Quiet), g1.(once := Once.Done), DONE);
        Chain(threads, t, g, close, marked, wait, g1.(once := Once.Done), DONE);
      }
    }
  }

  lemma CloseMarks(threads: map<Tid, Thread>, t: Tid, g: Shared)
    requires g.lock.None? && g.once == Unused
    ensures Leads(threads, t, g, Thread(InClose(Mark), Quiet),
                  g.(once := RunBy(t), closed := true, cancelled := true), Thread(InClose(AwaitMonitors), Quiet))
  {
    var g1 := g.(once := RunBy(t), closed := true);
    var g2 := g1.(cancelled := true);
    var wait := Thread(InClose(AwaitMonitors), Quiet);
    StopStops(threads, t, g1, ThenCancel);
    OneMove(threads, t, g1, Thread(InClose(Cancel), Quiet), g2, wait);
    Chain(threads, t, g1, Halting(ThenCancel, StopAt.TakeLock), g1, Thread(InClose(Cancel), Quiet), g2, wait);
    MoveThen(threads, t, g, Thread(InClose(Mark), Quiet), g1, Halting(ThenCancel, StopAt.TakeLock), g2, wait);
  }

  // ----- In a run -----

  /** In every run, a process can exit at any time at which the mutex is free: its monitor keeps the channel open, and that has room or makes it. */
  lemma ProcessMayExit(c: Config, steps: seq<Step>, t: Tid)
    requires Exec(Init(c), steps).Some?
    requires var s := Exec(Init(c), steps).value; t in s.threads && s.threads[t] == Watching(AwaitProcess) && s.g.lock.None?
    ensures var s := Exec(Init(c), steps).value; Exits(s.g) && s.g.config == c && With(s.threads, t, s.g, Watching(AwaitProcess)) == s
  {
    RunKeepsSafe(Init(c), steps);
    RunKeepsBudget(Init(c), steps);
    var s := Exec(Init(c), steps).value;
    assert ThreadOk(t, s.threads[t], s.g.lock, s.g.once, Phase(s));
    assert t in Monitors(s.threads);
    assert s.threads[t := Watching(AwaitProcess)] == s.threads;
  }

  /**
   In every run, when a process exits that nobody has asked to stop, its monitor decides by the
   configuration alone. With RestartOnFailure off the process has failed. With it on, and MaxRestarts
   positive and used up, it has failed for good. Otherwise its monitor waits, and once the timer fires,
   if the manager has not been closed, it enters startLocked with the next restart number.
   */
  lemma UnaskedExitDecides(c: Config, steps: seq<Step>, t: Tid, m: nat)
    requires Exec(Init(c), steps).Some?
    requires var s := Exec(Init(c), steps).value;
             t in s.threads && s.threads[t] == Watching(AwaitProcess) && s.g.lock.None? && s.g.status != Stopping && !s.g.closed
    ensures var s := Exec(Init(c), steps).value;
            var n := s.g.restartCount + 1;
            var failed := s.g.(hasProcess := false, status := Failed);
            var waiting := s.g.(hasProcess := false, restartCount := n, queue := Sent(Sent(s.g.queue, HasFailed), WillRestart));
            if !c.restartOnFailure then
              Leads(s.threads, t, s.g, s.threads[t], failed.(queue := Sent(s.g.queue, HasFailed)), DONE)
            else if 0 < c.maxRestarts < n then
              Leads(s.threads, t, s.g, s.threads[t], failed.(restartCount := n, queue := Sent(Sent(s.g.queue, HasFailed), GaveUp)), DONE)
            else
              && Leads(s.threads, t, s.g, s.threads[t], waiting, Watching(Delay(n)))
              && Do(With(s.threads, t, waiting, Watching(Delay(n))), Act(t, true, m)) == Some(With(s.threads, t, waiting, Watching(RetakeLock(n))))
              && Leads(s.threads, t, waiting, Watching(RetakeLock(n)),
                       waiting.(lock := Some(t), launched := waiting.launched + {n}, autoStarts := waiting.autoStarts + 1),
                       Thread(InLaunch(ByMonitor(n), SetStarting), Quiet))
  {
    ProcessMayExit(c, steps, t);
    var s := Exec(Init(c), steps).value;
    var n := s.g.restartCount + 1;
    if !c.restartOnFailure {
      UnaskedExitFails(s.threads, t, s.g);
    } else if 0 < c.maxRestarts < n {
      UnaskedExitGivesUp(s.threads, t, s.g);
    } else {
      var waiting := s.g.(hasProcess := false, restartCount := n, queue := Sent(Sent(s.g.queue, HasFailed), WillRestart));
      UnaskedExitWaits(s.threads, t, s.g);
      WaitingRestarts(s.threads, t, waiting, n);
      TimerFires(s.threads, t, waiting, n, m);
    }
  }

  lemma TimerFires(threads: map<Tid, Thread>, t: Tid, g: Shared, n: nat, m: nat)
    ensures Do(With(threads, t, g, Watching(Delay(n))), Act(t, true, m)) == Some(With(threads, t, g, Watching(RetakeLock(n))))
  {
    assert threads[t := Watching(Delay(n))][t := Watching(RetakeLock(n))] == threads[t := Watching(RetakeLock(n))];
  }

  // ----- Calls and events -----

  /** Where each call begins: Restart is a Stop that goes on to a Start. */
  lemma CallsBegin(s: State, n: nat)
    requires Caller(n) !in s.threads
    ensures Do(s, Enter(n, CallStart)) == Some(With(s.threads, Caller(n), s.g, Thread(InStart(StartAt.TakeLock), Quiet)))
    ensures Do(s, Enter(n, CallStop)) == Some(With(s.threads, Caller(n), s.g, Halting(Return, StopAt.TakeLock)))
    ensures Do(s, Enter(n, CallRestart)) == Some(With(s.threads, Caller(n), s.g, Halting(ThenStart, StopAt.TakeLock)))
    ensures Do(s, Enter(n, CallClose)) == Some(With(s.threads, Caller(n), s.g, Thread(InClose(Mark), Quiet)))
  {
  }

  /** A new manager has no process: its first Start launches one, and a Stop before that does nothing. */
  lemma NewManagerIsIdle(c: Config, n: nat)
    ensures var g := Init(c).g;
            && Do(Init(c), Enter(n, CallStart)) == Some(With(map[], Caller(n), g, Thread(InStart(StartAt.TakeLock), Quiet)))
            && Leads(map[], Caller(n), g, Thread(InStart(StartAt.TakeLock), Quiet), g.(lock := Some(Caller(n))), Launcher(ByCaller, SetStarting))
            && Do(Init(c), Enter(n, CallStop)) == Some(With(map[], Caller(n), g, Halting(Return, StopAt.TakeLock)))
            && Leads(map[], Caller(n), g, Halting(Return, StopAt.TakeLock), g, DONE)
  {
    CallsBegin(Init(c), n);
    StartLaunches(map[], Caller(n), Init(c).g);
    StopStops(map[], Caller(n), Init(c).g, Return);
  }

  /** A Restart of a manager whose process is not running comes to what a Start comes to, unless its context ends its pause. */
  lemma RestartStarts(s: State, n: nat, m: nat)
    requires Caller(n) !in s.threads && s.g.lock.None? && !s.g.closed && s.g.status != Running && s.g.status != Starting
    ensures var t, pause, start := Caller(n), Halting(ThenStart, Pause), Thread(InStart(StartAt.TakeLock), Quiet);
            && Do(s, Enter(n, CallRestart)) == Some(With(s.threads, t, s.g, Halting(ThenStart, StopAt.TakeLock)))
            && Leads(s.threads, t, s.g, Halting(ThenStart, StopAt.TakeLock), s.g, pause)
            && Do(With(s.threads, t, s.g, pause), Act(t, false, m)) == Some(With(s.threads, t, s.g, start))
            && Do(With(s.threads, t, s.g, pause), Act(t, true, m)) == Some(With(s.threads, t, s.g, DONE))
            && Leads(s.threads, t, s.g, start, s.g.(lock := Some(t)), Launcher(ByCaller, SetStarting))
  {
    var t, pause, start := Caller(n), Halting(ThenStart, Pause), Thread(InStart(StartAt.TakeLock), Quiet);
    CallsBegin(s, n);
    StopStops(s.threads, t, s.g, ThenStart);
    StopReturns(s.g, t, ThenStart, false);
    StopReturns(s.g, t, ThenStart, true);
    assert s.threads[t := pause][t := start] == s.threads[t := start];
    assert s.threads[t := pause][t := DONE] == s.threads[t := DONE];
    StartLaunches(s.threads, t, s.g);
  }

  /** The step puts this event into the channel, takes the oldest one out for its receiver, or evicts it. */
  predicate Puts(s: State, step: Step) {
    step.Act? && step.t in s.threads && (s.threads[step.t].sending.Offer? || s.threads[step.t].sending.Reoffer?)
    && !s.g.queueClosed && |s.g.queue| < 16
  }

  predicate Evicts(s: State, step: Step) {
    step.Act? && step.t in s.threads && s.threads[step.t].sending.Evict? && s.g.queue != []
  }

  /** The events put into the channel in the run, in order. */
  function PutIn(s: State, steps: seq<Step>): seq<Event>
    requires Exec(s, steps).Some?
    decreases steps
  {
    if steps == [] then []
    else (if Puts(s, steps[0]) then [s.threads[steps[0].t].sending.e] else []) + PutIn(Do(s, steps[0]).value, steps[1..])
  }

  /** The events received in the run, in order. */
  function ReceivedIn(s: State, steps: seq<Step>): seq<Event>
    requires Exec(s, steps).Some?
    decreases steps
  {
    if steps == [] then []
    else (if steps[0].Receive? then [s.g.queue[0]] else []) + ReceivedIn(Do(s, steps[0]).value, steps[1..])
  }

  function EvictedIn(s: State, steps: seq<Step>): nat
    requires Exec(s, steps).Some?
    decreases steps
  {
    if steps == [] then 0 else (if Evicts(s, steps[0]) then 1 else 0) + EvictedIn(Do(s, steps[0]).value, steps[1..])
  }

  /** One step moves at most one event in or out of the channel. */
  lemma StepMovesEvents(s: State, step: Step)
    requires Do(s, step).Some?
    ensures var queue := Do(s, step).value.g.queue;
            if step.Receive? then s.g.queue != [] && queue == s.g.queue[1..]
            else if Puts(s, step) then queue == s.g.queue + [s.threads[step.t].sending.e]
            else if Evicts(s, step) then queue == s.g.queue[1..]
            else queue == s.g.queue
  {
    if step.Act? {
      var th := s.threads[step.t];
      if th.sending == Quiet && th.pc != End {
        StatementMovesNoEvent(s.g, step.t, th, step.choice);
      }
    }
  }

  lemma StatementMovesNoEvent(g: Shared, t: Tid, th: Thread, choice: bool)
    requires th.sending == Quiet
    ensures var e := Execute1(g, t, th, choice); e.Next? ==> e.g.queue == g.queue
  {
    var e := Execute1(g, t, th, choice);
    if e.Next? {
      assert e.g.queue == g.queue by {
        match th.pc
        case InStart(at) => assert StartStep(g, t, at).Next? ==> StartStep(g, t, at).g.queue == g.queue;
        case InLaunch(o, at) => assert LaunchStep(g, o, at, choice).Next? ==> LaunchStep(g, o, at, choice).g.queue == g.queue;
        case InStop(k, at) => StopDoesNotRestart(g, t, k, at, choice);
        case InClose(at) => CloseDoesNotRestart(g, t, at);
        case InMonitor(at) => MonitorMovesNoEvent(g, t, at, choice);
      }
    }
  }

  lemma MonitorMovesNoEvent(g: Shared, t: Tid, at: WatchAt, choice: bool)
    ensures var e := WatchStep(g, t, at, choice); e.Next? ==> e.g.queue == g.queue
  {
  }

  /** What one step does to the accounts of the channel, given those of the rest of the run. */
  lemma AccountsAdd(q: seq<Event>, q1: seq<Event>, end: seq<Event>, took: seq<Event>, put: seq<Event>, received: seq<Event>, later: seq<Event>, evicted: nat)
    requires took + q1 == q + put && (evicted == 0 ==> received + end == q1 + later)
    ensures evicted == 0 ==> (took + received) + end == q + (put + later)
  {
    if evicted == 0 {
      calc {
        (took + received) + end;
        took + (received + end);
        took + (q1 + later);
        (took + q1) + later;
        (q + put) + later;
        q + (put + later);
      }
    }
  }

  lemma {:induction false} RunMovesEvents(s: State, steps: seq<Step>)
    requires Exec(s, steps).Some?
    ensures |ReceivedIn(s, steps)| + |Exec(s, steps).value.g.queue| + EvictedIn(s, steps) == |s.g.queue| + |PutIn(s, steps)|
    ensures EvictedIn(s, steps) == 0 ==> ReceivedIn(s, steps) + Exec(s, steps).value.g.queue == s.g.queue + PutIn(s, steps)
    decreases steps
  {
    if steps == [] {
      assert [] + s.g.queue == s.g.queue + [];
    } else {
      var s' := Do(s, steps[0]).value;
      var took := if steps[0].Receive? then [s.g.queue[0]] else [];
      var put := if Puts(s, steps[0]) then [s.threads[steps[0].t].sending.e] else [];
      StepMovesEvents(s, steps[0]);
      RunMovesEvents(s', steps[1..]);
      if !Evicts(s, steps[0]) {
        AccountsAdd(s.g.queue, s'.g.queue, Exec(s, steps).value.g.queue, took, put, ReceivedIn(s', steps[1..]), PutIn(s', steps[1..]), EvictedIn(s', steps[1..]));
      }
    }
  }

  /**
   In every interleaving, every event put into the channel was received, is waiting, or was evicted to make
   room; if none was evicted, what was received followed by what is waiting is what was put in, in order.
   */
  lemma EventsArriveInOrder(c: Config, steps: seq<Step>)
    requires Exec(Init(c), steps).Some?
    ensures var queue := Exec(Init(c), steps).value.g.queue;
            && |queue| <= 16
            && |ReceivedIn(Init(c), steps)| + |queue| + EvictedIn(Init(c), steps) == |PutIn(Init(c), steps)|
            && (EvictedIn(Init(c), steps) == 0 ==> ReceivedIn(Init(c), steps) + queue == PutIn(Init(c), steps))
  {
    RunKeepsSafe(Init(c), steps);
    RunMovesEvents(Init(c), steps);
    assert [] + PutIn(Init(c), steps) == PutIn(Init(c), steps);
  }
}
