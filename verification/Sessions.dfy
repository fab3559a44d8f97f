/**
 The session manager of internal/server/session.go, as goroutines that interleave. A session is an
 object that the manager's table refers to; its notification channel is a bounded queue. One step is
 one operation on a lock, a field or a channel.
 */
module Sessions {
  import opened Common

  const BUFFER := 100

  /** One attempt of a broadcast to queue its notification: which broadcast, how many were waiting, and whether it was queued. */
  datatype Attempt = Attempt(broadcast: nat, waiting: nat, kept: bool)

  /** received, attempts and bornAt only record history; bornAt is the number of broadcasts before the session existed. */
  datatype Session = Session(
    guard: Option<nat>, closed: bool, queue: seq<string>, queueClosed: bool,
    received: seq<string>, attempts: seq<Attempt>, bornAt: nat)

  /** Which sessions to close: one, all, or those found expired. */
  datatype Target = One(id: string) | All | Expired

  datatype Pc =
    | CreateLock(id: string)
    | CreateInsert(id: string)
    | CreateUnlock
    | BroadcastLock(data: string)
    | BroadcastNext(n: nat, todo: set<nat>)
    | BroadcastCheck(n: nat, todo: set<nat>, r: nat)
    | BroadcastSend(n: nat, todo: set<nat>, r: nat)
    | CloseLock(target: Target)
    | CloseNext(ids: set<string>)
    | CloseGuard(ids: set<string>, id: string)
    | CloseMark(ids: set<string>, id: string)
    | CloseQueue(ids: set<string>, id: string)
    | CloseUnguard(ids: set<string>, id: string)
    | CloseDelete(ids: set<string>, id: string)
    | End

  /**
   The shared state: the manager's read-write lock, its table, and the heap of sessions. created,
   removed, broadcasts and overlapped record history: overlapped says that two broadcasts were once
   in progress together. victim is the session that is being closed; outstanding are the sessions
   that the broadcast in progress has yet to serve.
   */
  datatype State = State(
    maxSessions: int,
    readers: set<nat>,
    writer: Option<nat>,
    table: map<string, nat>,
    heap: map<nat, Session>,
    created: nat,
    removed: nat,
    broadcasts: seq<string>,
    overlapped: bool,
    victim: Option<nat>,
    outstanding: set<nat>,
    panicked: bool)

  datatype World = World(g: State, threads: map<nat, Pc>)

  function Init(maxSessions: int): World {
    World(State(maxSessions, {}, None, map[], map[], 0, 0, [], false, None, {}, false), map[])
  }

  /** What the environment decides: where a map iteration goes next, who is expired, where a new session is allocated. */
  datatype Pick = Pick(r: nat, id: string, expired: set<string>)

  datatype Step = Enter(t: nat, pc: Pc) | Act(t: nat, pick: Pick) | Receive(r: nat)

  datatype Effect = Blocked | Next(g: State, pc: Pc)

  // ----- The statements -----

  function CreateStep(g: State, t: nat, pc: Pc, pick: Pick): Effect
    requires pc.CreateLock? || pc.CreateInsert? || pc.CreateUnlock?
  {
    match pc
    case CreateLock(id) =>
      if g.writer.None? && g.readers == {} then Next(g.(writer := Some(t)), CreateInsert(id)) else Blocked
    case CreateInsert(id) =>
      if |g.table| >= g.maxSessions then Next(g, CreateUnlock)
      else if id in g.table then Next(g, CreateInsert(pick.id))
      else if pick.r in g.heap then Blocked
      else
        var s := Session(None, false, [], false, [], [], |g.broadcasts|);
        Next(g.(table := g.table[id := pick.r], heap := g.heap[pick.r := s], created := g.created + 1), CreateUnlock)
    case CreateUnlock => Next(g.(writer := None), End)
  }

  function BroadcastStep(g: State, t: nat, pc: Pc, pick: Pick): Effect
    requires pc.BroadcastLock? || pc.BroadcastNext? || pc.BroadcastCheck? || pc.BroadcastSend?
  {
    match pc
    case BroadcastLock(data) =>
      if g.writer.Some? then Blocked
      else
        Next(g.(readers := g.readers + {t}, broadcasts := g.broadcasts + [data], overlapped := g.overlapped || g.readers != {},
                outstanding := g.table.Values),
             BroadcastNext(|g.broadcasts|, g.table.Values))
    case BroadcastNext(n, todo) =>
      if todo == {} then Next(g.(readers := g.readers - {t}), End)
      else if pick.r in todo then Next(g, BroadcastCheck(n, todo - {pick.r}, pick.r))
      else Blocked
    case BroadcastCheck(n, todo, r) =>
      if r !in g.heap || g.heap[r].guard.Some? then Blocked
      else Next(g, if g.heap[r].closed then BroadcastNext(n, todo) else BroadcastSend(n, todo, r))
    case BroadcastSend(n, todo, r) =>
      if r !in g.heap || n >= |g.broadcasts| then Blocked
      else
        var s := g.heap[r];
        if s.queueClosed then Next(g.(panicked := true), BroadcastNext(n, todo))
        else
          var kept := |s.queue| < BUFFER;
          var s' := s.(queue := if kept then s.queue + [g.broadcasts[n]] else s.queue, 
                        attempts := s.attempts + [Attempt(n, |s.queue|, kept)]);
          Next(g.(heap := g.heap[r := s'], outstanding := g.outstanding - {r}), BroadcastNext(n, todo))
  }

  predicate IsClosePc(pc: Pc) {
    pc.CloseLock? || pc.CloseNext? || pc.CloseGuard? || pc.CloseMark? || pc.CloseQueue? || pc.CloseUnguard? || pc.CloseDelete?
  }

  function Targets(g: State, target: Target, pick: Pick): set<string> {
    match target
    case One(id) => g.table.Keys * {id}
    case All => g.table.Keys
    case Expired => g.table.Keys * pick.expired
  }

  function CloseStep(g: State, t: nat, pc: Pc, pick: Pick): Effect
    requires IsClosePc(pc)
  {
    if pc.CloseLock? then
      if g.writer.None? && g.readers == {} then Next(g.(writer := Some(t)), CloseNext(Targets(g, pc.target, pick))) else Blocked
    else if pc.CloseNext? then
      if pc.ids == {} then Next(g.(writer := None), End)
      else if pick.id in pc.ids then Next(g, CloseGuard(pc.ids - {pick.id}, pick.id))
      else Blocked
    else if pc.id !in g.table || g.table[pc.id] !in g.heap then Blocked
    else
      var r := g.table[pc.id];
      var s := g.heap[r];
      match pc
      case CloseGuard(ids, id) =>
        if s.guard.Some? then Blocked
        else Next(g.(heap := g.heap[r := s.(guard := Some(t))], victim := Some(r)), CloseMark(ids, id))
      case CloseMark(ids, id) =>
        if s.closed then Next(g, CloseUnguard(ids, id))
        else Next(g.(heap := g.heap[r := s.(closed := true)]), CloseQueue(ids, id))
      case CloseQueue(ids, id) =>
        Next(g.(heap := g.heap[r := s.(queueClosed := true)], panicked := g.panicked || s.queueClosed), CloseUnguard(ids, id))
      case CloseUnguard(ids, id) => Next(g.(heap := g.heap[r := s.(guard := None)]), CloseDelete(ids, id))
      case CloseDelete(ids, id) =>
        Next(g.(table := g.table - {id}, removed := g.removed + 1, victim := None), CloseNext(ids))
  }

  function Execute(g: State, t: nat, pc: Pc, pick: Pick): Effect {
    if pc.End? then Blocked
    else if IsClosePc(pc) then CloseStep(g, t, pc, pick)
    else if pc.CreateLock? || pc.CreateInsert? || pc.CreateUnlock? then CreateStep(g, t, pc, pick)
    else BroadcastStep(g, t, pc, pick)
  }

  predicate IsEntry(pc: Pc) { pc.CreateLock? || pc.BroadcastLock? || pc.CloseLock? }

  function Do(w: World, step: Step): Option<World> {
    match step
    case Enter(t, pc) => if t in w.threads || !IsEntry(pc) then None else Some(w.(threads := w.threads[t := pc]))
    case Receive(r) =>
      if r !in w.g.heap || w.g.heap[r].queue == [] then None
      else
        var s := w.g.heap[r];
        var s' := s.(queue := s.queue[1..], received := s.received + [s.queue[0]]);
        Some(w.(g := w.g.(heap := w.g.heap[r := s'])))
    case Act(t, pick) =>
      if t !in w.threads then None
      else if w.threads[t].End? then Some(w.(threads := w.threads - {t}))
      else
        match Execute(w.g, t, w.threads[t], pick)
        case Blocked => None
        case Next(g, pc) => Some(World(g, w.threads[t := pc]))
  }

  function Exec(w: World, steps: seq<Step>): Option<World>
    decreases steps
  {
    if steps == [] then Some(w)
    else match Do(w, steps[0])
      case None => None
      case Some(w') => Exec(w', steps[1..])
  }

  // ----- Invariant: nobody sends on a closed channel -----

  predicate HoldsRead(pc: Pc) { pc.BroadcastNext? || pc.BroadcastCheck? || pc.BroadcastSend? }

  predicate HoldsWrite(pc: Pc) {
    pc.CreateInsert? || pc.CreateUnlock? || (IsClosePc(pc) && !pc.CloseLock?)
  }

  predicate Open(s: Session) { !s.closed && !s.queueClosed && s.guard.None? }

  predicate IsVictim(g: State, id: string) {
    id in g.table && g.victim == Some(g.table[id]) && g.table[id] in g.heap
  }

  /** How far the session being closed is, at each statement of Close. */
  predicate VictimAt(g: State, pc: Pc) {
    match pc
    case CloseMark(_, id) => IsVictim(g, id) && !g.heap[g.table[id]].closed && !g.heap[g.table[id]].queueClosed
    case CloseQueue(_, id) => IsVictim(g, id) && g.heap[g.table[id]].closed && !g.heap[g.table[id]].queueClosed
    case CloseUnguard(_, id) => IsVictim(g, id)
    case CloseDelete(_, id) => IsVictim(g, id)
    case _ => g.victim.None?
  }

  predicate WorkOk(g: State, pc: Pc) {
    match pc
    case BroadcastNext(n, todo) => todo <= g.table.Values && n < |g.broadcasts|
    case BroadcastCheck(n, todo, r) => todo <= g.table.Values && r in g.table.Values && r !in todo && n < |g.broadcasts|
    case BroadcastSend(n, todo, r) => todo <= g.table.Values && r in g.table.Values && r !in todo && n < |g.broadcasts|
    case CloseNext(ids) => ids <= g.table.Keys
    case CloseGuard(ids, id) => ids <= g.table.Keys && id in g.table && id !in ids
    case CloseMark(ids, id) => ids <= g.table.Keys && id !in ids
    case CloseQueue(ids, id) => ids <= g.table.Keys && id !in ids
    case CloseUnguard(ids, id) => ids <= g.table.Keys && id !in ids
    case CloseDelete(ids, id) => ids <= g.table.Keys && id !in ids
    case _ => true
  }

  predicate HeapOk(g: State) {
    && (forall id :: id in g.table ==> g.table[id] in g.heap && (g.victim != Some(g.table[id]) ==> Open(g.heap[g.table[id]])))
    && (forall a, b :: a in g.table && b in g.table && g.table[a] == g.table[b] ==> a == b)
    && (g.victim.Some? ==> g.writer.Some?)
    && (g.writer.Some? ==> g.readers == {})
    && !g.panicked
  }

  predicate ThreadOk(g: State, t: nat, pc: Pc) {
    && (HoldsRead(pc) <==> t in g.readers)
    && (HoldsWrite(pc) <==> g.writer == Some(t))
    && WorkOk(g, pc)
    && (HoldsWrite(pc) ==> VictimAt(g, pc))
  }

  predicate Safe(w: World) {
    && HeapOk(w.g)
    && (forall t :: t in w.threads ==> ThreadOk(w.g, t, w.threads[t]))
    && (forall t :: t in w.g.readers ==> t in w.threads)
    && (w.g.writer.Some? ==> w.g.writer.value in w.threads)
  }

  /** What one statement may change as far as the other goroutines are concerned. */
  predicate Polite(g: State, g': State, t: nat) {
    && (g'.readers == g.readers || g'.readers == g.readers + {t} || g'.readers == g.readers - {t})
    && (g'.writer == g.writer || (g.writer.None? && g'.writer == Some(t)) || (g.writer == Some(t) && g'.writer.None?))
    && (g.writer != Some(t) ==>
          && g'.table == g.table && g'.victim == g.victim
          && forall r :: r in g.heap ==>
               r in g'.heap && g'.heap[r].closed == g.heap[r].closed && g'.heap[r].queueClosed == g.heap[r].queueClosed)
    && |g'.broadcasts| >= |g.broadcasts|
  }

  lemma CreateIsSafe(g: State, t: nat, pc: Pc, pick: Pick)
    requires pc.CreateLock? || pc.CreateInsert? || pc.CreateUnlock?
    requires HeapOk(g) && ThreadOk(g, t, pc)
    ensures var e := CreateStep(g, t, pc, pick);
            e.Next? ==> HeapOk(e.g) && ThreadOk(e.g, t, e.pc) && Polite(g, e.g, t)
  {
  }

  lemma BroadcastIsSafe(g: State, t: nat, pc: Pc, pick: Pick)
    requires pc.BroadcastLock? || pc.BroadcastNext? || pc.BroadcastCheck? || pc.BroadcastSend?
    requires HeapOk(g) && ThreadOk(g, t, pc)
    ensures var e := BroadcastStep(g, t, pc, pick);
            e.Next? ==> HeapOk(e.g) && ThreadOk(e.g, t, e.pc) && Polite(g, e.g, t)
  {
    if HoldsRead(pc) {
      assert g.writer.None? && g.victim.None?;
    }
  }

  lemma CloseLockIsSafe(g: State, t: nat, pc: Pc, pick: Pick)
    requires pc.CloseLock? || pc.CloseNext?
    requires HeapOk(g) && ThreadOk(g, t, pc)
    ensures var e := CloseStep(g, t, pc, pick);
            e.Next? ==> HeapOk(e.g) && ThreadOk(e.g, t, e.pc) && Polite(g, e.g, t)
  {
  }

  /** The statements of Session.Close. */
  lemma CloseSessionIsSafe(g: State, t: nat, pc: Pc, pick: Pick)
    requires pc.CloseGuard? || pc.CloseMark? || pc.CloseQueue? || pc.CloseUnguard?
    requires HeapOk(g) && ThreadOk(g, t, pc)
    ensures var e := CloseStep(g, t, pc, pick);
            e.Next? ==> HeapOk(e.g) && ThreadOk(e.g, t, e.pc) && Polite(g, e.g, t)
  {
    var e := CloseStep(g, t, pc, pick);
    if e.Next? {
      var r := g.table[pc.id];
      assert e.g.victim == Some(r) && e.g.table == g.table;
      assert forall x :: x in g.heap && x != r ==> e.g.heap[x] == g.heap[x];
    }
  }

  lemma CloseDeleteIsSafe(g: State, t: nat, pc: Pc, pick: Pick)
    requires pc.CloseDelete? && HeapOk(g) && ThreadOk(g, t, pc)
    ensures var e := CloseStep(g, t, pc, pick);
            e.Next? ==> HeapOk(e.g) && ThreadOk(e.g, t, e.pc) && Polite(g, e.g, t)
  {
  }

  lemma OthersStayOk(g: State, g': State, t: nat, u: nat, pc: Pc)
    requires HeapOk(g) && HeapOk(g') && ThreadOk(g, u, pc) && u != t && Polite(g, g', t)
    ensures ThreadOk(g', u, pc)
  {
  }

  lemma ExecuteIsSafe(g: State, t: nat, pc: Pc, pick: Pick)
    requires HeapOk(g) && ThreadOk(g, t, pc)
    ensures var e := Execute(g, t, pc, pick);
            e.Next? ==> HeapOk(e.g) && ThreadOk(e.g, t, e.pc) && Polite(g, e.g, t)
  {
    if pc.End? {
    } else if IsClosePc(pc) {
      if pc.CloseLock? || pc.CloseNext? {
        CloseLockIsSafe(g, t, pc, pick);
      } else if pc.CloseDelete? {
        CloseDeleteIsSafe(g, t, pc, pick);
      } else {
        CloseSessionIsSafe(g, t, pc, pick);
      }
    } else if pc.CreateLock? || pc.CreateInsert? || pc.CreateUnlock? {
      CreateIsSafe(g, t, pc, pick);
    } else {
      BroadcastIsSafe(g, t, pc, pick);
    }
  }

  lemma ActIsSafe(w: World, t: nat, g': State, pc': Pc)
    requires Safe(w) && t in w.threads
    requires HeapOk(g') && ThreadOk(g', t, pc') && Polite(w.g, g', t)
    ensures Safe(World(g', w.threads[t := pc']))
  {
    var threads := w.threads[t := pc'];
    forall u | u in threads ensures ThreadOk(g', u, threads[u]) {
      if u != t {
        OthersStayOk(w.g, g', t, u, w.threads[u]);
      }
    }
  }

  lemma ReceiveIsSafe(w: World, r: nat, s': Session)
    requires Safe(w) && r in w.g.heap
    requires s'.(queue := w.g.heap[r].queue, received := w.g.heap[r].received) == w.g.heap[r]
    ensures Safe(w.(g := w.g.(heap := w.g.heap[r := s'])))
  {
    var g' := w.g.(heap := w.g.heap[r := s']);
    forall u | u in w.threads ensures ThreadOk(g', u, w.threads[u]) {
      assert ThreadOk(w.g, u, w.threads[u]);
    }
  }

  lemma StepIsSafe(w: World, step: Step)
    requires Safe(w) && Do(w, step).Some?
    ensures Safe(Do(w, step).value)
  {
    match step
    case Enter(t, pc) =>
      assert ThreadOk(w.g, t, pc);
    case Receive(r) => ReceiveIsSafe(w, r, Do(w, step).value.g.heap[r]);
    case Act(t, pick) =>
      var pc := w.threads[t];
      assert ThreadOk(w.g, t, pc);
      if !pc.End? {
        ExecuteIsSafe(w.g, t, pc, pick);
        var e := Execute(w.g, t, pc, pick);
        ActIsSafe(w, t, e.g, e.pc);
      }
  }

  // ----- Invariant: accounting and delivery -----

  predicate CountsOk(g: State) {
    g.created == g.removed + |g.table| && |g.table| <= Max(0, g.maxSessions)
  }

  /** The notifications that were queued, in the order of the attempts. */
  function Queued(attempts: seq<Attempt>, broadcasts: seq<string>): seq<string>
    requires forall i :: 0 <= i < |attempts| ==> attempts[i].broadcast < |broadcasts|
  {
    if attempts == [] then []
    else
      var last := attempts[|attempts| - 1];
      Queued(attempts[..|attempts| - 1], broadcasts) + if last.kept then [broadcasts[last.broadcast]] else []
  }

  /** Nothing queued is lost, duplicated or reordered, and nothing is dropped unless the buffer is full. */
  predicate SessionOk(s: Session, broadcasts: seq<string>) {
    && |s.queue| <= 100 && s.bornAt <= |broadcasts|
    && (forall i :: 0 <= i < |s.attempts| ==> s.bornAt <= s.attempts[i].broadcast < |broadcasts|)
    && (forall i :: 0 <= i < |s.attempts| ==> (s.attempts[i].kept <==> s.attempts[i].waiting < 100) && s.attempts[i].waiting <= 100)
    && s.received + s.queue == Queued(s.attempts, broadcasts)
  }

  /** Without overlapping broadcasts, a session is served every broadcast since its creation, in order. */
  predicate InOrder(s: Session) {
    forall i :: 0 <= i < |s.attempts| ==> s.attempts[i].broadcast == s.bornAt + i
  }

  predicate ServedUpTo(g: State, r: nat)
    requires r in g.heap
  {
    |g.heap[r].attempts| + g.heap[r].bornAt + (if r in g.outstanding then 1 else 0) == |g.broadcasts|
  }

  predicate SessionsOk(heap: map<nat, Session>, broadcasts: seq<string>) {
    forall r :: r in heap ==> SessionOk(heap[r], broadcasts)
  }

  predicate OrderOk(g: State) {
    !g.overlapped ==>
      && (forall r :: r in g.heap ==> InOrder(g.heap[r]))
      && (forall id :: id in g.table && g.table[id] in g.heap ==> ServedUpTo(g, g.table[id]))
      && (forall t, u :: t in g.readers && u in g.readers ==> t == u)
      && (g.readers == {} ==> g.outstanding == {})
  }

  /** The sessions a broadcaster has in hand or ahead of it. */
  function Ahead(pc: Pc): set<nat> {
    match pc
    case BroadcastNext(_, todo) => todo
    case BroadcastCheck(_, todo, r) => todo + {r}
    case BroadcastSend(_, todo, r) => todo + {r}
    case _ => {}
  }

  predicate ServesOk(g: State, pc: Pc) {
    !g.overlapped && HoldsRead(pc) ==> Ahead(pc) == g.outstanding && pc.n == |g.broadcasts| - 1
  }

  /** Nobody is served a broadcast from before their time. */
  predicate BornOk(heap: map<nat, Session>, pc: Pc) {
    HoldsRead(pc) ==> forall r :: r in Ahead(pc) ==> r in heap && heap[r].bornAt <= pc.n
  }

  predicate Delivering(g: State, pc: Pc) { ServesOk(g, pc) && BornOk(g.heap, pc) }

  lemma {:induction false} QueuedGrows(attempts: seq<Attempt>, broadcasts: seq<string>, data: string)
    requires forall i :: 0 <= i < |attempts| ==> attempts[i].broadcast < |broadcasts|
    ensures Queued(attempts, broadcasts + [data]) == Queued(attempts, broadcasts)
  {
    if attempts != [] {
      QueuedGrows(attempts[..|attempts| - 1], broadcasts, data);
    }
  }

  // A new broadcast: everybody in the table is outstanding.

  lemma BroadcastKeepsSessions(heap: map<nat, Session>, broadcasts: seq<string>, data: string)
    requires SessionsOk(heap, broadcasts)
    ensures SessionsOk(heap, broadcasts + [data])
  {
    forall r | r in heap ensures SessionOk(heap[r], broadcasts + [data]) {
      assert SessionOk(heap[r], broadcasts);
      QueuedGrows(heap[r].attempts, broadcasts, data);
    }
  }

  lemma BroadcastLockDelivers(g: State, t: nat, pc: Pc, pick: Pick)
    requires pc.BroadcastLock? && OrderOk(g) && HeapOk(g) && SessionsOk(g.heap, g.broadcasts)
    ensures var e := BroadcastStep(g, t, pc, pick);
            e.Next? ==> OrderOk(e.g) && Delivering(e.g, e.pc) && SessionsOk(e.g.heap, e.g.broadcasts)
  {
    BroadcastKeepsSessions(g.heap, g.broadcasts, pc.data);
    assert forall r :: r in g.heap ==> SessionOk(g.heap[r], g.broadcasts);
  }

  // One attempt.

  function Attempted(s: Session, n: nat, data: string): Session {
    var kept := |s.queue| < BUFFER;
    s.(queue := if kept then s.queue + [data] else s.queue, attempts := s.attempts + [Attempt(n, |s.queue|, kept)])
  }

  lemma AttemptKeepsSession(s: Session, broadcasts: seq<string>, n: nat)
    requires SessionOk(s, broadcasts) && s.bornAt <= n < |broadcasts|
    ensures SessionOk(Attempted(s, n, broadcasts[n]), broadcasts)
  {
    var s' := Attempted(s, n, broadcasts[n]);
    assert s'.attempts[..|s.attempts|] == s.attempts;
    assert s.received + (s.queue + [broadcasts[n]]) == s.received + s.queue + [broadcasts[n]];
  }

  lemma SendInOrder(g: State, t: nat, pc: Pc, pick: Pick)
    requires pc.BroadcastSend? && OrderOk(g) && HeapOk(g) && ThreadOk(g, t, pc) && ServesOk(g, pc)
    ensures var e := BroadcastStep(g, t, pc, pick);
            e.Next? ==> OrderOk(e.g) && ServesOk(e.g, e.pc)
  {
    var id :| id in g.table && g.table[id] == pc.r;
    assert !g.overlapped ==> ServedUpTo(g, g.table[id]);
  }

  lemma SendDelivers(g: State, t: nat, pc: Pc, pick: Pick)
    requires pc.BroadcastSend? && OrderOk(g) && HeapOk(g) && SessionsOk(g.heap, g.broadcasts)
    requires ThreadOk(g, t, pc) && Delivering(g, pc)
    ensures var e := BroadcastStep(g, t, pc, pick);
            e.Next? ==> OrderOk(e.g) && Delivering(e.g, e.pc) && SessionsOk(e.g.heap, e.g.broadcasts)
  {
    SendInOrder(g, t, pc, pick);
    var e := BroadcastStep(g, t, pc, pick);
    if e.Next? {
      var s := g.heap[pc.r];
      AttemptKeepsSession(s, g.broadcasts, pc.n);
      assert e.g.heap == g.heap[pc.r := Attempted(s, pc.n, g.broadcasts[pc.n])];
    }
  }

  lemma NextDelivers(g: State, t: nat, pc: Pc, pick: Pick)
    requires pc.BroadcastNext? && OrderOk(g) && ThreadOk(g, t, pc) && Delivering(g, pc)
    ensures var e := BroadcastStep(g, t, pc, pick);
            e.Next? ==> OrderOk(e.g) && Delivering(e.g, e.pc) && e.g.heap == g.heap && e.g.broadcasts == g.broadcasts
  {
    if pick.r in pc.todo {
      assert pc.todo - {pick.r} + {pick.r} == pc.todo;
    }
  }

  /** The check never finds a closed session: the broadcaster holds the manager's lock. */
  lemma CheckDelivers(g: State, t: nat, pc: Pc, pick: Pick)
    requires pc.BroadcastCheck? && HeapOk(g) && ThreadOk(g, t, pc) && Delivering(g, pc)
    ensures var e := BroadcastStep(g, t, pc, pick);
            e.Next? ==> e.pc.BroadcastSend? && e.g == g && Delivering(g, e.pc)
  {
    var id :| id in g.table && g.table[id] == pc.r;
    assert g.writer.None? && g.victim.None? && Open(g.heap[g.table[id]]);
  }

  // Creating and closing sessions: no broadcast is in progress.

  lemma InsertDelivers(g: State, id: string, r: nat, s: Session)
    requires OrderOk(g) && HeapOk(g) && SessionsOk(g.heap, g.broadcasts) && g.writer.Some?
    requires id !in g.table && r !in g.heap && s == Session(None, false, [], false, [], [], |g.broadcasts|)
    ensures var g' := g.(table := g.table[id := r], heap := g.heap[r := s], created := g.created + 1);
            OrderOk(g') && SessionsOk(g'.heap, g'.broadcasts)
  {
    assert SessionOk(s, g.broadcasts);
  }

  lemma SlotDelivers(g: State, t: nat, pc: Pc, pick: Pick)
    requires pc.CreateInsert? && OrderOk(g) && HeapOk(g) && SessionsOk(g.heap, g.broadcasts) && g.writer.Some?
    ensures var e := CreateStep(g, t, pc, pick);
            e.Next? ==> OrderOk(e.g) && SessionsOk(e.g.heap, e.g.broadcasts) && !HoldsRead(e.pc)
  {
    if pc.id !in g.table && pick.r !in g.heap {
      InsertDelivers(g, pc.id, pick.r, Session(None, false, [], false, [], [], |g.broadcasts|));
    }
  }

  lemma CreateDelivers(g: State, t: nat, pc: Pc, pick: Pick)
    requires pc.CreateLock? || pc.CreateInsert? || pc.CreateUnlock?
    requires OrderOk(g) && HeapOk(g) && SessionsOk(g.heap, g.broadcasts) && ThreadOk(g, t, pc)
    ensures var e := CreateStep(g, t, pc, pick);
            e.Next? ==> OrderOk(e.g) && SessionsOk(e.g.heap, e.g.broadcasts) && Delivering(e.g, e.pc)
  {
    if pc.CreateInsert? {
      SlotDelivers(g, t, pc, pick);
    }
  }

  /** Nothing that matters for delivery changes, except that sessions may leave the table. */
  predicate SameDelivery(g: State, g': State) {
    && g'.heap.Keys == g.heap.Keys && g'.broadcasts == g.broadcasts && g'.overlapped == g.overlapped
    && g'.readers == g.readers && g'.outstanding == g.outstanding
    && (forall id :: id in g'.table ==> id in g.table && g'.table[id] == g.table[id])
    && (forall r :: r in g.heap ==>
          && g'.heap[r].queue == g.heap[r].queue && g'.heap[r].received == g.heap[r].received
          && g'.heap[r].attempts == g.heap[r].attempts && g'.heap[r].bornAt == g.heap[r].bornAt)
  }

  lemma SameDeliveryKeepsOrder(g: State, g': State)
    requires OrderOk(g) && SessionsOk(g.heap, g.broadcasts) && SameDelivery(g, g')
    ensures OrderOk(g') && SessionsOk(g'.heap, g'.broadcasts)
  {
    forall r | r in g'.heap ensures SessionOk(g'.heap[r], g'.broadcasts) {
      assert SessionOk(g.heap[r], g.broadcasts);
    }
    if !g.overlapped {
      forall r | r in g'.heap ensures InOrder(g'.heap[r]) {
        assert InOrder(g.heap[r]);
      }
      forall id | id in g'.table && g'.table[id] in g'.heap ensures ServedUpTo(g', g'.table[id]) {
        assert ServedUpTo(g, g.table[id]);
      }
    }
  }

  lemma CloseDelivers(g: State, t: nat, pc: Pc, pick: Pick)
    requires IsClosePc(pc)
    requires OrderOk(g) && SessionsOk(g.heap, g.broadcasts)
    ensures var e := CloseStep(g, t, pc, pick);
            e.Next? ==> OrderOk(e.g) && SessionsOk(e.g.heap, e.g.broadcasts) && Delivering(e.g, e.pc)
  {
    var e := CloseStep(g, t, pc, pick);
    if e.Next? {
      CloseIsSameDelivery(g, t, pc, pick);
      SameDeliveryKeepsOrder(g, e.g);
    }
  }

  lemma CloseIsSameDelivery(g: State, t: nat, pc: Pc, pick: Pick)
    requires IsClosePc(pc)
    ensures var e := CloseStep(g, t, pc, pick); e.Next? ==> SameDelivery(g, e.g) && !HoldsRead(e.pc)
  {
    if pc.CloseLock? || pc.CloseNext? {
    } else if pc.CloseDelete? {
    } else {
      MarkIsSameDelivery(g, t, pc, pick);
    }
  }

  lemma MarkIsSameDelivery(g: State, t: nat, pc: Pc, pick: Pick)
    requires pc.CloseGuard? || pc.CloseMark? || pc.CloseQueue? || pc.CloseUnguard?
    ensures var e := CloseStep(g, t, pc, pick); e.Next? ==> SameDelivery(g, e.g) && !HoldsRead(e.pc)
  {
    var e := CloseStep(g, t, pc, pick);
    if e.Next? {
      var r := g.table[pc.id];
      assert e.g.heap == g.heap[r := e.g.heap[r]];
    }
  }

  lemma ReceiveDelivers(g: State, r: nat)
    requires OrderOk(g) && SessionsOk(g.heap, g.broadcasts) && r in g.heap && g.heap[r].queue != []
    ensures var s := g.heap[r];
            var s' := s.(queue := s.queue[1..], received := s.received + [s.queue[0]]);
            var g' := g.(heap := g.heap[r := s']);
            OrderOk(g') && SessionsOk(g'.heap, g'.broadcasts)
  {
    var s := g.heap[r];
    assert s.received + [s.queue[0]] + s.queue[1..] == s.received + s.queue;
  }

  // ----- All goroutines -----

  predicate Sound(w: World) {
    && Safe(w)
    && CountsOk(w.g) && OrderOk(w.g) && SessionsOk(w.g.heap, w.g.broadcasts)
    && forall t :: t in w.threads ==> Delivering(w.g, w.threads[t])
  }

  lemma BroadcastDelivers(g: State, t: nat, pc: Pc, pick: Pick)
    requires pc.BroadcastLock? || pc.BroadcastNext? || pc.BroadcastCheck? || pc.BroadcastSend?
    requires HeapOk(g) && ThreadOk(g, t, pc)
    requires OrderOk(g) && SessionsOk(g.heap, g.broadcasts) && Delivering(g, pc)
    ensures var e := BroadcastStep(g, t, pc, pick);
            e.Next? ==> OrderOk(e.g) && SessionsOk(e.g.heap, e.g.broadcasts) && Delivering(e.g, e.pc)
  {
    if pc.BroadcastLock? {
      BroadcastLockDelivers(g, t, pc, pick);
    } else if pc.BroadcastNext? {
      NextDelivers(g, t, pc, pick);
    } else if pc.BroadcastCheck? {
      CheckDelivers(g, t, pc, pick);
    } else {
      SendDelivers(g, t, pc, pick);
    }
  }

  lemma ExecuteDelivers(g: State, t: nat, pc: Pc, pick: Pick)
    requires HeapOk(g) && ThreadOk(g, t, pc)
    requires OrderOk(g) && SessionsOk(g.heap, g.broadcasts) && Delivering(g, pc)
    ensures var e := Execute(g, t, pc, pick);
            e.Next? ==> OrderOk(e.g) && SessionsOk(e.g.heap, e.g.broadcasts) && Delivering(e.g, e.pc)
  {
    if pc.End? {
    } else if IsClosePc(pc) {
      CloseDelivers(g, t, pc, pick);
    } else if pc.CreateLock? || pc.CreateInsert? || pc.CreateUnlock? {
      CreateDelivers(g, t, pc, pick);
    } else {
      BroadcastDelivers(g, t, pc, pick);
    }
  }

  lemma InsertCounts(table: map<string, nat>, id: string, r: nat)
    requires id !in table
    ensures |table[id := r]| == |table| + 1
  {
    assert table[id := r].Keys == table.Keys + {id};
  }

  lemma DeleteCounts(table: map<string, nat>, id: string)
    requires id in table
    ensures |table - {id}| == |table| - 1
  {
    assert table.Keys == (table - {id}).Keys + {id};
    assert |table.Keys| == |(table - {id}).Keys| + 1;
  }

  lemma CreateCounts(g: State, t: nat, pc: Pc, pick: Pick)
    requires pc.CreateLock? || pc.CreateInsert? || pc.CreateUnlock?
    requires CountsOk(g)
    ensures var e := CreateStep(g, t, pc, pick); e.Next? ==> CountsOk(e.g)
  {
    if pc.CreateInsert? && pc.id !in g.table {
      InsertCounts(g.table, pc.id, pick.r);
    }
  }

  lemma CloseCounts(g: State, t: nat, pc: Pc, pick: Pick)
    requires IsClosePc(pc) && CountsOk(g)
    ensures var e := CloseStep(g, t, pc, pick); e.Next? ==> CountsOk(e.g)
  {
    if pc.CloseDelete? && pc.id in g.table {
      DeleteCounts(g.table, pc.id);
    }
  }

  lemma ExecuteCounts(g: State, t: nat, pc: Pc, pick: Pick)
    requires CountsOk(g)
    ensures var e := Execute(g, t, pc, pick); e.Next? ==> CountsOk(e.g)
  {
    if pc.End? {
    } else if IsClosePc(pc) {
      CloseCounts(g, t, pc, pick);
    } else if pc.CreateLock? || pc.CreateInsert? || pc.CreateUnlock? {
      CreateCounts(g, t, pc, pick);
    }
  }

  /** What a statement of t leaves alone as far as another broadcaster is concerned. */
  predicate Considerate(g: State, g': State, t: nat) {
    && (g.overlapped ==> g'.overlapped)
    && (forall r :: r in g.heap ==> r in g'.heap && g'.heap[r].bornAt == g.heap[r].bornAt)
    && ((g'.broadcasts == g.broadcasts && g'.outstanding == g.outstanding)
        || t in g.readers || (g.readers != {} ==> g'.overlapped))
  }

  lemma ExecuteIsConsiderate(g: State, t: nat, pc: Pc, pick: Pick)
    requires ThreadOk(g, t, pc)
    ensures var e := Execute(g, t, pc, pick); e.Next? ==> Considerate(g, e.g, t)
  {
  }

  lemma OthersStillDeliver(g: State, g': State, t: nat, u: nat, pc: Pc)
    requires ThreadOk(g, u, pc) && Delivering(g, pc) && u != t && OrderOk(g) && Considerate(g, g', t)
    ensures Delivering(g', pc)
  {
  }

  lemma ActIsSound(w: World, t: nat, pick: Pick)
    requires Sound(w) && t in w.threads && Execute(w.g, t, w.threads[t], pick).Next?
    ensures var e := Execute(w.g, t, w.threads[t], pick);
            && CountsOk(e.g) && OrderOk(e.g) && SessionsOk(e.g.heap, e.g.broadcasts)
            && Delivering(e.g, e.pc) && Considerate(w.g, e.g, t)
  {
    var pc := w.threads[t];
    assert ThreadOk(w.g, t, pc) && Delivering(w.g, pc);
    ExecuteDelivers(w.g, t, pc, pick);
    ExecuteCounts(w.g, t, pc, pick);
    ExecuteIsConsiderate(w.g, t, pc, pick);
  }

  lemma AllStillDeliver(w: World, t: nat, g': State, pc': Pc)
    requires Safe(w) && OrderOk(w.g) && t in w.threads
    requires forall u :: u in w.threads ==> Delivering(w.g, w.threads[u])
    requires Considerate(w.g, g', t) && Delivering(g', pc')
    ensures var threads := w.threads[t := pc']; forall u :: u in threads ==> Delivering(g', threads[u])
  {
    var threads := w.threads[t := pc'];
    forall u | u in threads ensures Delivering(g', threads[u]) {
      if u != t {
        OthersStillDeliver(w.g, g', t, u, w.threads[u]);
      }
    }
  }

  lemma ReceiveIsConsiderate(w: World, r: nat, s': Session)
    requires r in w.g.heap && s'.bornAt == w.g.heap[r].bornAt
    requires forall u :: u in w.threads ==> Delivering(w.g, w.threads[u])
    ensures forall u :: u in w.threads ==> Delivering(w.g.(heap := w.g.heap[r := s']), w.threads[u])
  {
    forall u | u in w.threads ensures Delivering(w.g.(heap := w.g.heap[r := s']), w.threads[u]) {
      assert Delivering(w.g, w.threads[u]);
    }
  }

  lemma StepIsSound(w: World, step: Step)
    requires Sound(w) && Do(w, step).Some?
    ensures Sound(Do(w, step).value)
  {
    StepIsSafe(w, step);
    match step
    case Enter(t, pc) =>
    case Receive(r) =>
      ReceiveDelivers(w.g, r);
      ReceiveIsConsiderate(w, r, Do(w, step).value.g.heap[r]);
    case Act(t, pick) =>
      if !w.threads[t].End? {
        ActIsSound(w, t, pick);
        var e := Execute(w.g, t, w.threads[t], pick);
        AllStillDeliver(w, t, e.g, e.pc);
      }
  }

  lemma {:induction false} RunIsSound(w: World, steps: seq<Step>)
    requires Sound(w) && Exec(w, steps).Some?
    ensures Sound(Exec(w, steps).value)
    decreases steps
  {
    if steps != [] {
      StepIsSound(w, steps[0]);
      RunIsSound(Do(w, steps[0]).value, steps[1..]);
    }
  }

  lemma {:induction false} RunKeepsLimit(w: World, steps: seq<Step>)
    requires Exec(w, steps).Some?
    ensures Exec(w, steps).value.g.maxSessions == w.g.maxSessions
    decreases steps
  {
    if steps != [] {
      RunKeepsLimit(Do(w, steps[0]).value, steps[1..]);
    }
  }

  // ----- Main results -----

  /**
   No interleaving of broadcasts, creations, closes and reaping sends on a closed notification channel
   or closes one twice, and whenever nobody holds the manager's write lock every session in the table
   is open.
   */
  lemma NoInterleavingPanics(maxSessions: int, steps: seq<Step>)
    requires Exec(Init(maxSessions), steps).Some?
    ensures var g := Exec(Init(maxSessions), steps).value.g;
            && !g.panicked
            && (g.writer.None? ==> forall id :: id in g.table ==> g.table[id] in g.heap && Open(g.heap[g.table[id]]))
    ensures var w := Exec(Init(maxSessions), steps).value;
            forall t :: t in w.threads ==>
              && (w.threads[t].BroadcastSend? ==> w.threads[t].r in w.g.heap && !w.g.heap[w.threads[t].r].queueClosed)
              && (w.threads[t].CloseQueue? ==>
                    var id := w.threads[t].id;
                    id in w.g.table && w.g.table[id] in w.g.heap && !w.g.heap[w.g.table[id]].queueClosed)
  {
    RunIsSound(Init(maxSessions), steps);
    var w := Exec(Init(maxSessions), steps).value;
    forall t | t in w.threads
      ensures w.threads[t].BroadcastSend? ==> w.threads[t].r in w.g.heap && !w.g.heap[w.threads[t].r].queueClosed
      ensures w.threads[t].CloseQueue? ==>
                var id := w.threads[t].id;
                id in w.g.table && w.g.table[id] in w.g.heap && !w.g.heap[w.g.table[id]].queueClosed
    {
      SendsOnOpenChannel(w.g, t, w.threads[t]);
    }
  }

  lemma SendsOnOpenChannel(g: State, t: nat, pc: Pc)
    requires HeapOk(g) && ThreadOk(g, t, pc)
    ensures pc.BroadcastSend? ==> pc.r in g.heap && !g.heap[pc.r].queueClosed
    ensures pc.CloseQueue? ==> pc.id in g.table && g.table[pc.id] in g.heap && !g.heap[g.table[pc.id]].queueClosed
  {
    if pc.BroadcastSend? {
      var id :| id in g.table && g.table[id] == pc.r;
      assert g.writer.None? && g.victim.None?;
    }
  }

  /** In every interleaving, sessions created minus sessions removed is the size of the table, within the limit. */
  lemma SessionsAreAccountedFor(maxSessions: int, steps: seq<Step>)
    requires Exec(Init(maxSessions), steps).Some?
    ensures var g := Exec(Init(maxSessions), steps).value.g;
            g.created - g.removed == |g.table| <= Max(0, maxSessions)
  {
    RunIsSound(Init(maxSessions), steps);
    RunKeepsLimit(Init(maxSessions), steps);
  }

  /**
   In every interleaving, what a session has received followed by what is queued is exactly the
   notifications that broadcasts since its creation queued for it; one is dropped only when 100 are
   waiting. When broadcasts never overlap, as with a single read loop, these broadcasts come in order
   without gaps, and a session in the table has been served all of them once none is in progress.
   */
  lemma NotificationsArriveInOrder(maxSessions: int, steps: seq<Step>, r: nat)
    requires Exec(Init(maxSessions), steps).Some? && r in Exec(Init(maxSessions), steps).value.g.heap
    ensures var g := Exec(Init(maxSessions), steps).value.g;
            var s := g.heap[r];
            && SessionOk(s, g.broadcasts)
            && (!g.overlapped ==>
                  && (forall i :: 0 <= i < |s.attempts| ==> s.attempts[i].broadcast == s.bornAt + i)
                  && (r in g.table.Values && g.readers == {} ==> |s.attempts| == |g.broadcasts| - s.bornAt))
  {
    RunIsSound(Init(maxSessions), steps);
    var g := Exec(Init(maxSessions), steps).value.g;
    assert SessionOk(g.heap[r], g.broadcasts);
    if !g.overlapped {
      assert InOrder(g.heap[r]);
      if r in g.table.Values {
        var id :| id in g.table && g.table[id] == r;
        assert ServedUpTo(g, g.table[id]);
      }
    }
  }

  // ----- Overlapping broadcasts -----

  lemma EnterStep(w: World, t: nat, pc: Pc, rest: seq<Step>)
    requires t !in w.threads && IsEntry(pc)
    ensures Exec(w, [Enter(t, pc)] + rest) == Exec(w.(threads := w.threads[t := pc]), rest)
  {
    assert ([Enter(t, pc)] + rest)[1..] == rest;
  }

  lemma ActStep(w: World, t: nat, pick: Pick, rest: seq<Step>)
    requires t in w.threads && !w.threads[t].End? && Execute(w.g, t, w.threads[t], pick).Next?
    ensures var e := Execute(w.g, t, w.threads[t], pick);
            Exec(w, [Act(t, pick)] + rest) == Exec(World(e.g, w.threads[t := e.pc]), rest)
  {
    assert ([Act(t, pick)] + rest)[1..] == rest;
  }

  const PICK := Pick(0, "a", {})

  /** Session 0 is open, and goroutines 2 and 3 are at these statements. */
  predicate Stage(w: World, readers: set<nat>, broadcasts: seq<string>, queue: seq<string>, two: Option<Pc>, three: Option<Pc>) {
    && w.g.readers == readers && w.g.writer.None? && w.g.broadcasts == broadcasts
    && w.g.table.Values == {0} && 0 in w.g.heap && Open(w.g.heap[0]) && w.g.heap[0].queue == queue
    && (if two.Some? then 2 in w.threads && w.threads[2] == two.value else 2 !in w.threads)
    && (if three.Some? then 3 in w.threads && w.threads[3] == three.value else 3 !in w.threads)
  }

  function Creates(rest: seq<Step>): seq<Step> {
    [Enter(1, CreateLock("a"))] + ([Act(1, PICK)] + ([Act(1, PICK)] + ([Act(1, PICK)] + rest)))
  }

  function Locks(rest: seq<Step>): seq<Step> {
    [Enter(2, BroadcastLock("first"))] + ([Enter(3, BroadcastLock("second"))] + ([Act(2, PICK)] + ([Act(3, PICK)] + rest)))
  }

  function Serves(t: nat, rest: seq<Step>): seq<Step> {
    [Act(t, PICK)] + ([Act(t, PICK)] + ([Act(t, PICK)] + rest))
  }

  lemma CreateA(rest: seq<Step>) returns (w: World)
    ensures Exec(Init(1), Creates(rest)) == Exec(w, rest)
    ensures Stage(w, {}, [], [], None, None)
  {
    var a := Act(1, PICK);
    EnterStep(Init(1), 1, CreateLock("a"), [a] + ([a] + ([a] + rest)));
    w := Init(1).(threads := map[1 := CreateLock("a")]);
    assert Init(1).threads[1 := CreateLock("a")] == w.threads;
    ActStep(w, 1, PICK, [a] + ([a] + rest));
    w := World(w.g.(writer := Some(1)), w.threads[1 := CreateInsert("a")]);
    w := InsertA(w, rest);
  }

  lemma InsertA(w: World, rest: seq<Step>) returns (w': World)
    requires w == World(Init(1).g.(writer := Some(1)), map[1 := CreateInsert("a")])
    ensures Exec(w, [Act(1, PICK)] + ([Act(1, PICK)] + rest)) == Exec(w', rest)
    ensures Stage(w', {}, [], [], None, None)
  {
    ActStep(w, 1, PICK, [Act(1, PICK)] + rest);
    w' := World(Execute(w.g, 1, CreateInsert("a"), PICK).g, w.threads[1 := CreateUnlock]);
    assert w'.g.table == map["a" := 0];
    assert w'.g.table.Values == {0};
    ActStep(w', 1, PICK, rest);
    w' := World(w'.g.(writer := None), w'.threads[1 := End]);
  }

  lemma BothLock(w: World, rest: seq<Step>) returns (w': World)
    requires Stage(w, {}, [], [], None, None)
    ensures Exec(w, Locks(rest)) == Exec(w', rest)
    ensures Stage(w', {2, 3}, ["first", "second"], [], Some(BroadcastNext(0, {0})), Some(BroadcastNext(1, {0})))
  {
    var r := [Act(2, PICK)] + ([Act(3, PICK)] + rest);
    EnterStep(w, 2, BroadcastLock("first"), [Enter(3, BroadcastLock("second"))] + r);
    w' := w.(threads := w.threads[2 := BroadcastLock("first")]);
    EnterStep(w', 3, BroadcastLock("second"), r);
    w' := w'.(threads := w'.threads[3 := BroadcastLock("second")]);
    ActStep(w', 2, PICK, [Act(3, PICK)] + rest);
    w' := World(Execute(w'.g, 2, BroadcastLock("first"), PICK).g, w'.threads[2 := BroadcastNext(0, {0})]);
    ActStep(w', 3, PICK, rest);
    w' := World(Execute(w'.g, 3, BroadcastLock("second"), PICK).g, w'.threads[3 := BroadcastNext(1, {0})]);
    assert w'.g.broadcasts == ["first", "second"];
  }

  /** Goroutine t queues its broadcast for session 0. */
  lemma Serve(w: World, t: nat, n: nat, rest: seq<Step>) returns (w': World)
    requires t in w.threads && w.threads[t] == BroadcastNext(n, {0}) && n < |w.g.broadcasts|
    requires 0 in w.g.heap && Open(w.g.heap[0]) && |w.g.heap[0].queue| < BUFFER
    ensures Exec(w, Serves(t, rest)) == Exec(w', rest)
    ensures w'.g.broadcasts == w.g.broadcasts
    ensures 0 in w'.g.heap && Open(w'.g.heap[0]) && w'.g.heap[0].queue == w.g.heap[0].queue + [w.g.broadcasts[n]]
    ensures forall u :: u in w.threads && u != t ==> u in w'.threads && w'.threads[u] == w.threads[u]
  {
    ActStep(w, t, PICK, [Act(t, PICK)] + ([Act(t, PICK)] + rest));
    w' := World(w.g, w.threads[t := BroadcastCheck(n, {0} - {0}, 0)]);
    ActStep(w', t, PICK, [Act(t, PICK)] + rest);
    w' := World(w.g, w'.threads[t := BroadcastSend(n, {0} - {0}, 0)]);
    ActStep(w', t, PICK, rest);
    var e := Execute(w.g, t, BroadcastSend(n, {0} - {0}, 0), PICK);
    w' := World(e.g, w'.threads[t := e.pc]);
  }

  /**
   Order is lost only by overlapping: the read lock admits two broadcasts at once, and then a session
   can be served the later one first. Hence the condition in NotificationsArriveInOrder.
   */
  lemma OverlappingBroadcastsCanSwap()
    ensures exists steps :: Exec(Init(1), steps).Some?
              && var g := Exec(Init(1), steps).value.g;
                 g.broadcasts == ["first", "second"] && 0 in g.heap && g.heap[0].queue == ["second", "first"]
  {
    var w := CreateA(Locks(Serves(3, Serves(2, []))));
    w := BothLock(w, Serves(3, Serves(2, [])));
    w := Serve(w, 3, 1, Serves(2, []));
    w := Serve(w, 2, 0, []);
    assert Exec(Init(1), Creates(Locks(Serves(3, Serves(2, []))))) == Some(w);
  }
}
