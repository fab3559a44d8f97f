/**
 The subprocess manager of internal/process/manager.go, as goroutines that interleave.

 A goroutine is a program counter that names the statement it is about to execute, and possibly an
 event it is in the middle of sending. One step executes one statement: a mutex operation, an
 access to an atomic, a channel operation, a WaitGroup operation. What the code cannot decide (the
 process exits, exec fails, a timer fires) is a parameter of the step.
 */
module ProcessManagement {
  import opened Common

  datatype Config = Config(restartOnFailure: bool, maxRestarts: int)

  datatype Status = Stopped | Starting | Running | Stopping | Failed

  datatype Event = HasStarted | HasStopped | HasFailed | WillRestart | GaveUp

  datatype Tid = Caller(n: nat) | Monitor(n: nat)

  /** What follows a Stop: nothing, the second half of Restart, or the second half of Close. */
  datatype Continuation = Return | ThenStart | ThenCancel

  /** Who runs startLocked: a caller of Start, or a monitor that was granted the given restart number. */
  datatype Origin = ByCaller | ByMonitor(ticket: nat)

  datatype StartAt = TakeLock | CheckClosed | CheckState

  datatype LaunchAt = SetStarting | Execute | CountMonitor | SpawnMonitor | DropLock(ok: bool)

  datatype StopAt =
    | TakeLock | CheckClosed | CheckState | SetStopping | DropLock(hasProcess: bool)
    | SetStopped | TakeLockAgain | CloseStdin | AwaitExit | Pause

  datatype CloseAt = Mark | Cancel | AwaitMonitors | CloseEvents | Finish

  datatype WatchAt =
    | ReadCmd | AwaitProcess | TakeLock | CleanUp | DropLock(wasStopping: bool) | Judge(wasStopping: bool)
    | ReportStopped | CheckPolicy | CountRestart | GiveUp | Announce(ticket: nat) | Delay(ticket: nat)
    | RetakeLock(ticket: nat) | RecheckClosed(ticket: nat) | Abandon | ReportFailed

  datatype Pc =
    | InStart(start: StartAt)
    | InLaunch(o: Origin, launch: LaunchAt)
    | InStop(k: Continuation, stop: StopAt)
    | InClose(close: CloseAt)
    | InMonitor(watch: WatchAt)
    | End

  /** Where a goroutine is inside sendEvent. */
  datatype Sending = Quiet | Offer(e: Event) | Evict(e: Event) | Reoffer(e: Event)

  datatype Thread = Thread(pc: Pc, sending: Sending)

  /** The sync.Once of Close. */
  datatype Once = Unused | RunBy(t: Tid) | Done

  const CAPACITY := 16

  /**
   What the goroutines share. panicked records that some statement would have panicked. launched
   and autoStarts only record history: the restart numbers for which startLocked was called, and
   how many such calls there were.
   */
  datatype Shared = Shared(
    config: Config,
    lock: Option<Tid>,
    status: Status,
    hasProcess: bool,
    restartCount: nat,
    closed: bool,
    cancelled: bool,
    waitGroup: int,
    queue: seq<Event>,
    queueClosed: bool,
    once: Once,
    panicked: bool,
    launched: set<nat>,
    autoStarts: nat)

  datatype State = State(g: Shared, threads: map<Tid, Thread>)

  function Init(c: Config): State {
    State(Shared(c, None, Stopped, false, 0, false, false, 0, [], false, Unused, false, {}, 0), map[])
  }

  /** The entry points a caller can use. Restart is a Stop that goes on to Start. */
  datatype Entry = CallStart | CallStop | CallRestart | CallClose

  datatype Step =
    | Enter(n: nat, entry: Entry)
    | Act(t: Tid, choice: bool, newMonitor: nat)
    | Receive

  // ----- The statements -----

  /** What a statement does: it has to wait, or it changes the shared state and its own goroutine. */
  datatype Effect = Blocked | Next(g: Shared, th: Thread)

  function Goto(g: Shared, pc: Pc): Effect { Next(g, Thread(pc, Quiet)) }

  function GotoSending(g: Shared, pc: Pc, e: Event): Effect { Next(g, Thread(pc, Offer(e))) }

  function Acquire(g: Shared, t: Tid, pc: Pc): Effect {
    if g.lock.None? then Goto(g.(lock := Some(t)), pc) else Blocked
  }

  function Release(g: Shared, pc: Pc): Effect { Goto(g.(lock := None), pc) }

  function StartStep(g: Shared, t: Tid, at: StartAt): Effect {
    match at
    case TakeLock => Acquire(g, t, InStart(StartAt.CheckClosed))
    case CheckClosed => if g.closed then Release(g, End) else Goto(g, InStart(StartAt.CheckState))
    case CheckState =>
      if g.status.Running? || g.status.Starting? then Release(g, End) else Goto(g, InLaunch(ByCaller, SetStarting))
  }

  function LaunchStep(g: Shared, o: Origin, at: LaunchAt, execWorks: bool): Effect {
    match at
    case SetStarting => Goto(g.(status := Starting), InLaunch(o, Execute))
    case Execute =>
      if execWorks then Goto(g.(status := Running, hasProcess := true), InLaunch(o, CountMonitor))
      else Goto(g.(status := Failed), InLaunch(o, LaunchAt.DropLock(false)))
    case CountMonitor => Goto(g.(waitGroup := g.waitGroup + 1), InLaunch(o, SpawnMonitor))
    case SpawnMonitor => GotoSending(g, InLaunch(o, LaunchAt.DropLock(true)), HasStarted)
    case DropLock(ok) => Release(g, if o.ByMonitor? && !ok then InMonitor(ReportFailed) else End)
  }

  function Resume(k: Continuation, failed: bool): Pc {
    match k
    case Return => End
    case ThenStart => if failed then End else InStop(k, Pause)
    case ThenCancel => InClose(Cancel)
  }

  function StopStep(g: Shared, t: Tid, k: Continuation, at: StopAt, contextDone: bool): Effect {
    match at
    case TakeLock => Acquire(g, t, InStop(k, StopAt.CheckClosed))
    case CheckClosed => if g.closed then Release(g, Resume(k, true)) else Goto(g, InStop(k, StopAt.CheckState))
    case CheckState => if g.status.Running? then Goto(g, InStop(k, SetStopping)) else Release(g, Resume(k, false))
    case SetStopping => Goto(g.(status := Stopping), InStop(k, StopAt.DropLock(g.hasProcess)))
    case DropLock(has) => Release(g, InStop(k, if has then TakeLockAgain else SetStopped))
    case SetStopped => Goto(g.(status := Stopped), Resume(k, false))
    case TakeLockAgain => Acquire(g, t, InStop(k, CloseStdin))
    case CloseStdin => Release(g, InStop(k, AwaitExit))
    case AwaitExit => Goto(g, Resume(k, contextDone))
    case Pause => Goto(g, if contextDone then End else InStart(StartAt.TakeLock))
  }

  function CloseStep(g: Shared, t: Tid, at: CloseAt): Effect {
    match at
    case Mark =>
      if g.once.Done? then Goto(g, End)
      else if g.once.Unused? then Goto(g.(once := RunBy(t), closed := true), InStop(ThenCancel, StopAt.TakeLock))
      else Blocked
    case Cancel => Goto(g.(cancelled := true), InClose(AwaitMonitors))
    case AwaitMonitors => if g.waitGroup == 0 then Goto(g, InClose(CloseEvents)) else Blocked
    case CloseEvents => Goto(g.(queueClosed := true, panicked := g.panicked || g.queueClosed), InClose(Finish))
    case Finish => Goto(g.(once := Done), End)
  }

  function WatchStep(g: Shared, t: Tid, at: WatchAt, timerFires: bool): Effect {
    match at
    case ReadCmd => if g.lock.Some? then Blocked else Goto(g, if g.hasProcess then InMonitor(AwaitProcess) else End)
    case AwaitProcess => Goto(g, InMonitor(WatchAt.TakeLock))
    case TakeLock => Acquire(g, t, InMonitor(CleanUp))
    case CleanUp => Goto(g.(hasProcess := false), InMonitor(WatchAt.DropLock(g.status.Stopping?)))
    case DropLock(w) => Release(g, InMonitor(Judge(w)))
    case Judge(w) =>
      if w || g.closed then Goto(g, InMonitor(ReportStopped)) else GotoSending(g, InMonitor(CheckPolicy), HasFailed)
    case ReportStopped => GotoSending(g.(status := Stopped), End, HasStopped)
    case CheckPolicy =>
      if g.config.restartOnFailure then Goto(g, InMonitor(CountRestart)) else Goto(g.(status := Failed), End)
    case CountRestart =>
      var restarts := g.restartCount + 1;
      Goto(g.(restartCount := restarts),
           InMonitor(if 0 < g.config.maxRestarts < restarts then GiveUp else Announce(restarts)))
    case GiveUp => GotoSending(g.(status := Failed), End, GaveUp)
    case Announce(n) => GotoSending(g, InMonitor(Delay(n)), WillRestart)
    case Delay(n) =>
      if timerFires then Goto(g, InMonitor(RetakeLock(n)))
      else if g.cancelled then Goto(g, InMonitor(Abandon))
      else Blocked
    case RetakeLock(n) => Acquire(g, t, InMonitor(RecheckClosed(n)))
    case RecheckClosed(n) =>
      if g.closed then Release(g, InMonitor(Abandon))
      else Goto(g.(launched := g.launched + {n}, autoStarts := g.autoStarts + 1), InLaunch(ByMonitor(n), SetStarting))
    case Abandon => Goto(g.(status := Stopped), End)
    case ReportFailed => GotoSending(g.(status := Failed), End, HasFailed)
  }

  /** A channel operation of sendEvent. Sending on a closed channel panics; receiving from it does not. */
  function SendStep(g: Shared, pc: Pc, at: Sending): Effect {
    match at
    case Quiet => Goto(g, pc)
    case Offer(e) =>
      if g.queueClosed then Goto(g.(panicked := true), pc)
      else if |g.queue| < CAPACITY then Goto(g.(queue := g.queue + [e]), pc)
      else Next(g, Thread(pc, Evict(e)))
    case Evict(e) => Next(g.(queue := if g.queue == [] then [] else g.queue[1..]), Thread(pc, Reoffer(e)))
    case Reoffer(e) =>
      if g.queueClosed then Goto(g.(panicked := true), pc)
      else if |g.queue| < CAPACITY then Goto(g.(queue := g.queue + [e]), pc)
      else Goto(g, pc)
  }

  function Execute1(g: Shared, t: Tid, th: Thread, choice: bool): Effect {
    if !th.sending.Quiet? then SendStep(g, th.pc, th.sending)
    else
      match th.pc
      case InStart(at) => StartStep(g, t, at)
      case InLaunch(o, at) => LaunchStep(g, o, at, choice)
      case InStop(k, at) => StopStep(g, t, k, at, choice)
      case InClose(at) => CloseStep(g, t, at)
      case InMonitor(at) => WatchStep(g, t, at, choice)
      case End => Blocked
  }

  /** Returning from a call, or from a monitor, which signs off from the WaitGroup. */
  function SignOff(g: Shared, t: Tid): Shared {
    if t.Caller? then g
    else g.(waitGroup := g.waitGroup - 1, panicked := g.panicked || g.waitGroup - 1 < 0)
  }

  function EntryPc(e: Entry): Pc {
    match e
    case CallStart => InStart(StartAt.TakeLock)
    case CallStop => InStop(Return, StopAt.TakeLock)
    case CallRestart => InStop(ThenStart, StopAt.TakeLock)
    case CallClose => InClose(Mark)
  }

  /** The state after a step, or None if the step is blocked. */
  function Do(s: State, step: Step): Option<State> {
    match step
    case Enter(n, e) =>
      if Caller(n) in s.threads then None
      else Some(s.(threads := s.threads[Caller(n) := Thread(EntryPc(e), Quiet)]))
    case Receive => if s.g.queue == [] then None else Some(s.(g := s.g.(queue := s.g.queue[1..])))
    case Act(t, choice, newMonitor) =>
      if t !in s.threads then None
      else
        var th := s.threads[t];
        if th == Thread(End, Quiet) then Some(State(SignOff(s.g, t), s.threads - {t}))
        else if Spawns(th) && Monitor(newMonitor) in s.threads then None
        else
          match Execute1(s.g, t, th, choice)
          case Blocked => None
          case Next(g, th') =>
            var threads := s.threads[t := th'];
            Some(State(g, if Spawns(th) then threads[Monitor(newMonitor) := Thread(InMonitor(ReadCmd), Quiet)] else threads))
  }

  predicate Spawns(th: Thread) { th.sending.Quiet? && th.pc.InLaunch? && th.pc.launch.SpawnMonitor? }

  /** Runs a whole schedule; None if it contains a blocked step. */
  function Exec(s: State, steps: seq<Step>): Option<State>
    decreases steps
  {
    if steps == [] then Some(s)
    else match Do(s, steps[0])
      case None => None
      case Some(s') => Exec(s', steps[1..])
  }

  // ----- The invariant -----

  /** Past the closed check of Start, or of a restarting monitor, and not yet out of the mutex. */
  predicate Launching(pc: Pc) { pc.InLaunch? || pc == InStart(StartAt.CheckState) }

  predicate HoldsLock(pc: Pc) {
    match pc
    case InStart(at) => !at.TakeLock?
    case InLaunch(_, _) => true
    case InStop(_, at) => at.CheckClosed? || at.CheckState? || at.SetStopping? || at.DropLock? || at.CloseStdin?
    case InClose(_) => false
    case InMonitor(at) => at.CleanUp? || at.DropLock? || at.RecheckClosed?
    case End => false
  }

  /** Between the moment Close marks the manager and its last statement. */
  predicate Closing(pc: Pc) {
    match pc
    case InStop(k, _) => k.ThenCancel?
    case InClose(at) => !at.Mark?
    case _ => false
  }

  /** The Stop inside Close never gets past its closed check. */
  predicate PcFits(t: Tid, pc: Pc) {
    match pc
    case InStart(_) => t.Caller?
    case InLaunch(o, _) => o.ByCaller? <==> t.Caller?
    case InStop(k, at) => t.Caller? && (k.ThenCancel? ==> at.TakeLock? || at.CheckClosed?)
    case InClose(_) => t.Caller?
    case InMonitor(_) => t.Monitor?
    case End => true
  }

  /** Which of Close's stages is over: 1 marked, 2 has held the mutex, 3 WaitGroup seen at zero, 4 channel closed. */
  function CloserProgress(pc: Pc): nat {
    match pc
    case InStop(_, at) => if at.TakeLock? then 1 else 2
    case InClose(at) => if at.CloseEvents? then 3 else if at.Finish? then 4 else 2
    case _ => 0
  }

  function Progress(once: Once, threads: map<Tid, Thread>): nat {
    match once
    case Unused => 0
    case RunBy(t) => if t in threads then CloserProgress(threads[t].pc) else 0
    case Done => 4
  }

  function Phase(s: State): nat { Progress(s.g.once, s.threads) }

  function Monitors(threads: map<Tid, Thread>): set<Tid> {
    set t | t in threads && t.Monitor?
  }

  /** 1 for a goroutine that has counted a monitor it has not started yet. */
  function Due(pc: Pc): nat { if pc.InLaunch? && pc.launch.SpawnMonitor? then 1 else 0 }

  function MonitorsDue(lock: Option<Tid>, threads: map<Tid, Thread>): nat {
    if lock.Some? && lock.value in threads then Due(threads[lock.value].pc) else 0
  }

  predicate ThreadOk(t: Tid, th: Thread, lock: Option<Tid>, once: Once, phase: nat) {
    && PcFits(t, th.pc)
    && (HoldsLock(th.pc) <==> lock == Some(t))
    && (Closing(th.pc) <==> once == RunBy(t))
    && (!th.sending.Quiet? ==> t.Monitor? || Launching(th.pc))
    && (Launching(th.pc) ==> phase < 2)
  }

  predicate ThreadsOk(threads: map<Tid, Thread>, lock: Option<Tid>, once: Once) {
    && (forall t :: t in threads ==> ThreadOk(t, threads[t], lock, once, Progress(once, threads)))
    && (lock.Some? ==> lock.value in threads)
    && (once.RunBy? ==> once.t in threads)
  }

  predicate FlagsOk(g: Shared, phase: nat) {
    && (g.closed <==> !g.once.Unused?)
    && (g.queueClosed <==> phase >= 4)
    && |g.queue| <= CAPACITY
    && !g.panicked
  }

  predicate Safe(s: State) {
    && ThreadsOk(s.threads, s.g.lock, s.g.once)
    && FlagsOk(s.g, Phase(s))
    && s.g.waitGroup == |Monitors(s.threads)| + MonitorsDue(s.g.lock, s.threads)
    && (Phase(s) >= 3 ==> s.g.waitGroup == 0)
  }

  // ----- Each statement, without the rest of the goroutines -----

  /** The mutex stays as it is, or goes to or from t. */
  predicate LockMoves(before: Option<Tid>, after: Option<Tid>, t: Tid) {
    after == before || (before.None? && after == Some(t)) || (before == Some(t) && after.None?)
  }

  /** A statement of goroutine t that is not part of Close and respects t's share of the invariant. */
  predicate Respects(g: Shared, th: Thread, g': Shared, th': Thread, t: Tid, phase: nat) {
    && !Closing(th.pc)
    && g'.once == g.once
    && LockMoves(g.lock, g'.lock, t)
    && g'.waitGroup - Due(th'.pc) == g.waitGroup - Due(th.pc) + (if Spawns(th) then 1 else 0)
    && ThreadOk(t, th', g'.lock, g.once, phase)
    && FlagsOk(g', phase)
  }

  /** A statement of Close: it gets further, and nobody is past a closed check once it has held the mutex. */
  predicate Advances(g: Shared, th: Thread, g': Shared, th': Thread, t: Tid) {
    && !Launching(th.pc) && !Launching(th'.pc) && PcFits(t, th'.pc) && th'.sending.Quiet?
    && LockMoves(g.lock, g'.lock, t) && (HoldsLock(th'.pc) <==> g'.lock == Some(t))
    && g'.waitGroup == g.waitGroup
    && ((g.once.Unused? && g'.once == RunBy(t)) || (g.once == RunBy(t) && (g'.once == g.once || g'.once.Done?)))
    && (Closing(th'.pc) <==> g'.once == RunBy(t))
    && var before, after := if g.once.Unused? then 0 else CloserProgress(th.pc),
                            if g'.once.Done? then 4 else CloserProgress(th'.pc);
       && FlagsOk(g', after)
       && (after >= 2 ==> before >= 2 || (g.lock.None? && g'.lock == Some(t)))
       && (after >= 3 ==> before >= 3 || g.waitGroup == 0)
  }

  /** What a goroutine may rely on when it is about to execute a statement at pc. */
  predicate Ready(g: Shared, t: Tid, pc: Pc, phase: nat) {
    && ThreadOk(t, Thread(pc, Quiet), g.lock, g.once, phase)
    && (g.once.Unused? ==> phase == 0)
    && (g.once == RunBy(t) ==> phase == CloserProgress(pc))
    && FlagsOk(g, phase)
  }

  lemma StartRespects(g: Shared, t: Tid, at: StartAt, phase: nat)
    requires Ready(g, t, InStart(at), phase)
    ensures var e := StartStep(g, t, at);
            e.Next? ==> Respects(g, Thread(InStart(at), Quiet), e.g, e.th, t, phase)
  {
  }

  lemma LaunchRespects(g: Shared, t: Tid, o: Origin, at: LaunchAt, choice: bool, phase: nat)
    requires Ready(g, t, InLaunch(o, at), phase)
    ensures var e := LaunchStep(g, o, at, choice);
            e.Next? ==> Respects(g, Thread(InLaunch(o, at), Quiet), e.g, e.th, t, phase)
  {
  }

  lemma StopRespects(g: Shared, t: Tid, k: Continuation, at: StopAt, choice: bool, phase: nat)
    requires Ready(g, t, InStop(k, at), phase) && !k.ThenCancel?
    ensures var e := StopStep(g, t, k, at, choice);
            e.Next? ==> Respects(g, Thread(InStop(k, at), Quiet), e.g, e.th, t, phase)
  {
  }

  lemma WatchRespects(g: Shared, t: Tid, at: WatchAt, choice: bool, phase: nat)
    requires Ready(g, t, InMonitor(at), phase)
    ensures var e := WatchStep(g, t, at, choice);
            e.Next? ==> Respects(g, Thread(InMonitor(at), Quiet), e.g, e.th, t, phase)
  {
  }

  lemma SendRespects(g: Shared, t: Tid, th: Thread, phase: nat)
    requires ThreadOk(t, th, g.lock, g.once, phase) && FlagsOk(g, phase) && !th.sending.Quiet? && !g.queueClosed
    ensures var e := SendStep(g, th.pc, th.sending);
            e.Next? && Respects(g, th, e.g, e.th, t, phase)
  {
  }

  lemma CloseAdvances(g: Shared, t: Tid, at: CloseAt, phase: nat)
    requires Ready(g, t, InClose(at), phase)
    ensures var e := CloseStep(g, t, at);
            var th := Thread(InClose(at), Quiet);
            e.Next? ==> if at.Mark? && g.once.Done? then Respects(g, th, e.g, e.th, t, phase) else Advances(g, th, e.g, e.th, t)
  {
  }

  /** The Stop inside Close takes the mutex, sees the mark, and gives the mutex back. */
  lemma StopInsideCloseAdvances(g: Shared, t: Tid, at: StopAt, choice: bool, phase: nat)
    requires Ready(g, t, InStop(ThenCancel, at), phase)
    ensures var e := StopStep(g, t, ThenCancel, at, choice);
            e.Next? ==> Advances(g, Thread(InStop(ThenCancel, at), Quiet), e.g, e.th, t)
  {
  }

  // ----- All goroutines -----

  lemma RespectfulStepKeepsSafe(s: State, g': Shared, th': Thread, t: Tid)
    requires Safe(s) && t in s.threads && !Spawns(s.threads[t])
    requires Respects(s.g, s.threads[t], g', th', t, Phase(s))
    ensures Safe(State(g', s.threads[t := th']))
  {
    var threads := s.threads[t := th'];
    assert ThreadOk(t, s.threads[t], s.g.lock, s.g.once, Phase(s));
    assert Progress(g'.once, threads) == Phase(s);
    forall u | u in threads ensures ThreadOk(u, threads[u], g'.lock, g'.once, Phase(s)) {
      if u != t {
        assert ThreadOk(u, s.threads[u], s.g.lock, s.g.once, Phase(s));
      }
    }
    assert Monitors(threads) == Monitors(s.threads);
  }

  lemma AdvanceKeepsSafe(s: State, g': Shared, th': Thread, t: Tid)
    requires Safe(s) && t in s.threads && Advances(s.g, s.threads[t], g', th', t)
    ensures Safe(State(g', s.threads[t := th']))
  {
    var threads := s.threads[t := th'];
    var phase := Progress(g'.once, threads);
    assert ThreadOk(t, s.threads[t], s.g.lock, s.g.once, Phase(s));
    forall u | u in threads ensures ThreadOk(u, threads[u], g'.lock, g'.once, phase) {
      if u != t {
        assert ThreadOk(u, s.threads[u], s.g.lock, s.g.once, Phase(s));
      }
    }
    assert Monitors(threads) == Monitors(s.threads);
  }

  /** Starting the monitor pays back what CountMonitor added in advance. */
  lemma SpawnKeepsSafe(s: State, g': Shared, th': Thread, t: Tid, m: Tid)
    requires Safe(s) && t in s.threads && Spawns(s.threads[t]) && m.Monitor? && m !in s.threads
    requires Respects(s.g, s.threads[t], g', th', t, Phase(s)) && Due(th'.pc) == 0
    ensures Safe(State(g', s.threads[t := th'][m := Thread(InMonitor(ReadCmd), Quiet)]))
  {
    var threads := s.threads[t := th'][m := Thread(InMonitor(ReadCmd), Quiet)];
    assert ThreadOk(t, s.threads[t], s.g.lock, s.g.once, Phase(s));
    assert Progress(g'.once, threads) == Phase(s);
    forall u | u in threads ensures ThreadOk(u, threads[u], g'.lock, g'.once, Phase(s)) {
      if u != t && u != m {
        assert ThreadOk(u, s.threads[u], s.g.lock, s.g.once, Phase(s));
      }
    }
    assert Monitors(threads) == Monitors(s.threads) + {m};
  }

  lemma EndKeepsSafe(s: State, t: Tid)
    requires Safe(s) && t in s.threads && s.threads[t] == Thread(End, Quiet)
    ensures Safe(State(SignOff(s.g, t), s.threads - {t}))
  {
    var threads := s.threads - {t};
    assert ThreadOk(t, s.threads[t], s.g.lock, s.g.once, Phase(s));
    assert Progress(s.g.once, threads) == Phase(s);
    forall u | u in threads ensures ThreadOk(u, threads[u], s.g.lock, s.g.once, Phase(s)) {
      assert ThreadOk(u, s.threads[u], s.g.lock, s.g.once, Phase(s));
    }
    if t.Monitor? {
      assert Monitors(s.threads) == Monitors(threads) + {t};
    } else {
      assert Monitors(threads) == Monitors(s.threads);
    }
  }

  lemma EnterKeepsSafe(s: State, n: nat, e: Entry)
    requires Safe(s) && Caller(n) !in s.threads
    ensures Safe(s.(threads := s.threads[Caller(n) := Thread(EntryPc(e), Quiet)]))
  {
    var threads := s.threads[Caller(n) := Thread(EntryPc(e), Quiet)];
    assert Progress(s.g.once, threads) == Phase(s);
    forall u | u in threads ensures ThreadOk(u, threads[u], s.g.lock, s.g.once, Phase(s)) {
      if u != Caller(n) {
        assert ThreadOk(u, s.threads[u], s.g.lock, s.g.once, Phase(s));
      }
    }
    assert Monitors(threads) == Monitors(s.threads);
  }

  /** Whoever is in the middle of a send is counted by the WaitGroup, or has held the mutex since before Close could get it. */
  lemma NoSendAfterClose(s: State, t: Tid)
    requires Safe(s) && t in s.threads && !s.threads[t].sending.Quiet?
    ensures !s.g.queueClosed
  {
    assert ThreadOk(t, s.threads[t], s.g.lock, s.g.once, Phase(s));
    if t.Monitor? {
      assert Monitors(s.threads) >= {t};
      assert |Monitors(s.threads)| > 0;
    }
  }

  lemma StatementFits(g: Shared, t: Tid, th: Thread, choice: bool, phase: nat)
    requires ThreadOk(t, th, g.lock, g.once, phase) && FlagsOk(g, phase)
    requires (g.once.Unused? ==> phase == 0) && (g.once == RunBy(t) ==> phase == CloserProgress(th.pc))
    requires !th.sending.Quiet? ==> !g.queueClosed
    ensures var e := Execute1(g, t, th, choice);
            e.Next? ==> Respects(g, th, e.g, e.th, t, phase) || (!Spawns(th) && Advances(g, th, e.g, e.th, t))
  {
    if !th.sending.Quiet? {
      SendRespects(g, t, th, phase);
    } else {
      assert Ready(g, t, th.pc, phase);
      match th.pc {
        case InStart(at) => StartRespects(g, t, at, phase);
        case InLaunch(o, at) => LaunchRespects(g, t, o, at, choice, phase);
        case InStop(k, at) =>
          if k.ThenCancel? {
            StopInsideCloseAdvances(g, t, at, choice, phase);
          } else {
            StopRespects(g, t, k, at, choice, phase);
          }
        case InClose(at) => CloseAdvances(g, t, at, phase);
        case InMonitor(at) => WatchRespects(g, t, at, choice, phase);
        case End =>
      }
    }
  }

  lemma ActKeepsSafe(s: State, t: Tid, choice: bool, m: Tid)
    requires Safe(s) && t in s.threads && s.threads[t] != Thread(End, Quiet)
    requires Spawns(s.threads[t]) ==> m.Monitor? && m !in s.threads
    requires Execute1(s.g, t, s.threads[t], choice).Next?
    ensures var e := Execute1(s.g, t, s.threads[t], choice);
            var threads := s.threads[t := e.th];
            Safe(State(e.g, if Spawns(s.threads[t]) then threads[m := Thread(InMonitor(ReadCmd), Quiet)] else threads))
  {
    var th := s.threads[t];
    var e := Execute1(s.g, t, th, choice);
    assert ThreadOk(t, th, s.g.lock, s.g.once, Phase(s));
    if !th.sending.Quiet? {
      NoSendAfterClose(s, t);
    }
    StatementFits(s.g, t, th, choice, Phase(s));
    if Spawns(th) {
      SpawnKeepsSafe(s, e.g, e.th, t, m);
    } else if Respects(s.g, th, e.g, e.th, t, Phase(s)) {
      RespectfulStepKeepsSafe(s, e.g, e.th, t);
    } else {
      AdvanceKeepsSafe(s, e.g, e.th, t);
    }
  }

  lemma StepKeepsSafe(s: State, step: Step)
    requires Safe(s) && Do(s, step).Some?
    ensures Safe(Do(s, step).value)
  {
    match step
    case Receive =>
    case Enter(n, e) => EnterKeepsSafe(s, n, e);
    case Act(t, choice, newMonitor) =>
      if s.threads[t] == Thread(End, Quiet) {
        EndKeepsSafe(s, t);
      } else {
        ActKeepsSafe(s, t, choice, Monitor(newMonitor));
      }
  }

  lemma {:induction false} RunKeepsSafe(s: State, steps: seq<Step>)
    requires Safe(s) && Exec(s, steps).Some?
    ensures Safe(Exec(s, steps).value)
    decreases steps
  {
    if steps != [] {
      StepKeepsSafe(s, steps[0]);
      RunKeepsSafe(Do(s, steps[0]).value, steps[1..]);
    }
  }

  // ----- Main results -----

  /**
   No interleaving of Start, Stop, Restart, Close and the monitors sends on the closed event
   channel, closes it twice, or takes the WaitGroup below zero; and the WaitGroup always counts
   exactly the live monitors, plus one that is about to be started.
   */
  lemma NoInterleavingPanics(c: Config, steps: seq<Step>)
    requires Exec(Init(c), steps).Some?
    ensures var s := Exec(Init(c), steps).value;
            && !s.g.panicked
            && s.g.waitGroup == |Monitors(s.threads)| + MonitorsDue(s.g.lock, s.threads)
            && (s.g.queueClosed ==>
                  forall t :: t in s.threads ==>
                    t.Caller? && s.threads[t].sending.Quiet? && s.threads[t].pc != InClose(CloseEvents))
  {
    RunKeepsSafe(Init(c), steps);
    var s := Exec(Init(c), steps).value;
    if s.g.queueClosed {
      assert Monitors(s.threads) == {};
      forall t | t in s.threads ensures t.Caller? && s.threads[t].sending.Quiet? && s.threads[t].pc != InClose(CloseEvents) {
        assert t !in Monitors(s.threads);
        assert ThreadOk(t, s.threads[t], s.g.lock, s.g.once, Phase(s));
      }
    }
  }

  /** Once Close waits for the monitors, no monitor is ever added to the WaitGroup again. */
  lemma NoMonitorCountedOnceCloseWaits(c: Config, steps: seq<Step>, t: Tid)
    requires Exec(Init(c), steps).Some? && t in Exec(Init(c), steps).value.threads
    requires var s := Exec(Init(c), steps).value; Phase(s) >= 2
    ensures !Launching(Exec(Init(c), steps).value.threads[t].pc)
  {
    RunKeepsSafe(Init(c), steps);
    var s := Exec(Init(c), steps).value;
    assert ThreadOk(t, s.threads[t], s.g.lock, s.g.once, Phase(s));
  }

  /**
   The Stop inside Close never stops anything: Close has already marked the manager closed, so that
   Stop is always refused right after it took the mutex. It acts only as a barrier.
   */
  lemma StopInsideCloseIsAlwaysRefused(c: Config, steps: seq<Step>, t: Tid)
    requires Exec(Init(c), steps).Some? && t in Exec(Init(c), steps).value.threads
    ensures var pc := Exec(Init(c), steps).value.threads[t].pc;
            pc.InStop? && pc.k.ThenCancel? ==> pc.stop.TakeLock? || pc.stop.CheckClosed?
  {
    RunKeepsSafe(Init(c), steps);
    var s := Exec(Init(c), steps).value;
    assert ThreadOk(t, s.threads[t], s.g.lock, s.g.once, Phase(s));
  }

  // ----- Restart budget -----

  /** The restart number a monitor was granted and has not used yet. */
  function Ticket(th: Thread): Option<nat> {
    if th.pc.InMonitor? then
      match th.pc.watch
      case Announce(n) => Some(n)
      case Delay(n) => Some(n)
      case RetakeLock(n) => Some(n)
      case RecheckClosed(n) => Some(n)
      case _ => None
    else None
  }

  predicate TicketOk(g: Shared, n: nat) {
    && 1 <= n <= g.restartCount
    && (g.config.maxRestarts > 0 ==> n <= g.config.maxRestarts)
  }

  predicate WithinBudget(s: State) {
    && s.g.autoStarts == |s.g.launched|
    && (forall n :: n in s.g.launched ==> TicketOk(s.g, n))
    && (forall t :: t in s.threads ==>
          var k := Ticket(s.threads[t]);
          k.Some? ==> TicketOk(s.g, k.value) && k.value !in s.g.launched)
    && (forall t, u :: t in s.threads && u in s.threads && t != u && Ticket(s.threads[t]).Some? ==>
          Ticket(s.threads[t]) != Ticket(s.threads[u]))
  }

  /** One statement keeps its ticket or loses it, uses it up, or draws the next one. */
  predicate TicketMoves(g: Shared, th: Thread, g': Shared, th': Thread) {
    && g'.config == g.config
    && (|| (g'.restartCount == g.restartCount && g'.launched == g.launched && g'.autoStarts == g.autoStarts
            && (Ticket(th') == Ticket(th) || Ticket(th').None?))
        || (g'.restartCount == g.restartCount && Ticket(th).Some? && Ticket(th').None?
            && g'.launched == g.launched + {Ticket(th).value} && g'.autoStarts == g.autoStarts + 1)
        || (g'.restartCount == g.restartCount + 1 && g'.launched == g.launched && g'.autoStarts == g.autoStarts
            && (Ticket(th').None? || (Ticket(th') == Some(g'.restartCount) && TicketOk(g', g'.restartCount)))))
  }

  lemma WatchMovesTicket(g: Shared, t: Tid, at: WatchAt, choice: bool)
    ensures var e := WatchStep(g, t, at, choice); e.Next? ==> TicketMoves(g, Thread(InMonitor(at), Quiet), e.g, e.th)
  {
  }

  lemma StopMovesNoTicket(g: Shared, t: Tid, k: Continuation, at: StopAt, choice: bool)
    ensures var e := StopStep(g, t, k, at, choice); e.Next? ==> TicketMoves(g, Thread(InStop(k, at), Quiet), e.g, e.th)
  {
  }

  lemma LaunchMovesNoTicket(g: Shared, o: Origin, at: LaunchAt, choice: bool)
    ensures var e := LaunchStep(g, o, at, choice); e.Next? ==> TicketMoves(g, Thread(InLaunch(o, at), Quiet), e.g, e.th)
  {
  }

  lemma StartMovesNoTicket(g: Shared, t: Tid, at: StartAt)
    ensures var e := StartStep(g, t, at); e.Next? ==> TicketMoves(g, Thread(InStart(at), Quiet), e.g, e.th)
  {
  }

  lemma CloseMovesNoTicket(g: Shared, t: Tid, at: CloseAt)
    ensures var e := CloseStep(g, t, at); e.Next? ==> TicketMoves(g, Thread(InClose(at), Quiet), e.g, e.th)
  {
  }

  lemma SendMovesNoTicket(g: Shared, pc: Pc, at: Sending)
    ensures var e := SendStep(g, pc, at); e.Next? ==> TicketMoves(g, Thread(pc, at), e.g, e.th)
  {
    assert forall x, y :: Ticket(Thread(pc, x)) == Ticket(Thread(pc, y));
  }

  lemma StatementMovesTicket(g: Shared, t: Tid, th: Thread, choice: bool)
    ensures var e := Execute1(g, t, th, choice); e.Next? ==> TicketMoves(g, th, e.g, e.th)
  {
    var e := Execute1(g, t, th, choice);
    if e.Next? {
      assert TicketMoves(g, th, e.g, e.th) by {
        if !th.sending.Quiet? {
          SendMovesNoTicket(g, th.pc, th.sending);
        } else {
          match th.pc
          case InStart(at) => StartMovesNoTicket(g, t, at);
          case InLaunch(o, at) => LaunchMovesNoTicket(g, o, at, choice);
          case InStop(k, at) => StopMovesNoTicket(g, t, k, at, choice);
          case InClose(at) => CloseMovesNoTicket(g, t, at);
          case InMonitor(at) => WatchMovesTicket(g, t, at, choice);
        }
      }
    }
  }

  lemma MoveKeepsBudget(s: State, g': Shared, th': Thread, t: Tid)
    requires WithinBudget(s) && t in s.threads && TicketMoves(s.g, s.threads[t], g', th')
    ensures WithinBudget(State(g', s.threads[t := th']))
  {
  }

  lemma StepKeepsBudget(s: State, step: Step)
    requires WithinBudget(s) && Do(s, step).Some?
    ensures WithinBudget(Do(s, step).value) && Do(s, step).value.g.config == s.g.config
  {
    match step
    case Receive =>
    case Enter(_, _) =>
    case Act(t, choice, newMonitor) =>
      var th := s.threads[t];
      if th != Thread(End, Quiet) {
        StatementMovesTicket(s.g, t, th, choice);
        var e := Execute1(s.g, t, th, choice);
        MoveKeepsBudget(s, e.g, e.th, t);
      }
  }

  lemma {:induction false} RunKeepsBudget(s: State, steps: seq<Step>)
    requires WithinBudget(s) && Exec(s, steps).Some?
    ensures WithinBudget(Exec(s, steps).value) && Exec(s, steps).value.g.config == s.g.config
    decreases steps
  {
    if steps != [] {
      StepKeepsBudget(s, steps[0]);
      RunKeepsBudget(Do(s, steps[0]).value, steps[1..]);
    }
  }

  lemma {:induction false} BoundedSetIsSmall(ns: set<nat>, bound: nat)
    requires forall n :: n in ns ==> 1 <= n <= bound
    ensures |ns| <= bound
  {
    if bound > 0 {
      BoundedSetIsSmall(ns - {bound}, bound - 1);
    } else {
      assert ns == {};
    }
  }

  /** With a positive limit, all monitors together perform at most that many automatic starts, over the manager's whole life. */
  lemma AutomaticRestartsAreBounded(c: Config, steps: seq<Step>)
    requires Exec(Init(c), steps).Some? && c.maxRestarts > 0
    ensures Exec(Init(c), steps).value.g.autoStarts <= c.maxRestarts
  {
    RunKeepsBudget(Init(c), steps);
    BoundedSetIsSmall(Exec(Init(c), steps).value.g.launched, c.maxRestarts);
  }
}
