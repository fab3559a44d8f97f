/** Which sessions a close removes, in every interleaving, and that whoever holds a lock can move on. */
module SessionRuns {
  import opened Common
  import opened Sessions

  // ----- Why a session goes -----

  /** The close asks for this session: by name, as one of all, or because it was found expired. */
  predicate Wants(target: Target, expired: set<string>, id: string) {
    target == One(id) || target.All? || (target.Expired? && id in expired)
  }

  /** A close between taking the manager's lock and letting it go. */
  predicate Closing(pc: Pc) {
    pc.CloseNext? || pc.CloseGuard? || pc.CloseMark? || pc.CloseQueue? || pc.CloseUnguard? || pc.CloseDelete?
  }

  /** The sessions that it has yet to remove. */
  function Left(pc: Pc): set<string> {
    match pc
    case CloseNext(ids) => ids
    case CloseGuard(ids, id) => ids + {id}
    case CloseMark(ids, id) => ids + {id}
    case CloseQueue(ids, id) => ids + {id}
    case CloseUnguard(ids, id) => ids + {id}
    case CloseDelete(ids, id) => ids + {id}
    case _ => {}
  }

  /** A close that took the manager's lock: whose, what for, and which sessions it found expired. */
  datatype Cause = Cause(t: nat, target: Target, expired: set<string>)

  predicate Locks(w: World, step: Step) { step.Act? && step.t in w.threads && w.threads[step.t].CloseLock? }

  /** The last close that took the lock in the run. */
  function LastClose(w: World, steps: seq<Step>, cause: Option<Cause>): Option<Cause>
    requires Exec(w, steps).Some?
    decreases steps
  {
    if steps == [] then cause
    else
      LastClose(Do(w, steps[0]).value, steps[1..],
                if Locks(w, steps[0]) then Some(Cause(steps[0].t, w.threads[steps[0].t].target, steps[0].pick.expired)) else cause)
  }

  /** A close in progress is the last one that took the lock, and removes only what it was asked to. */
  predicate Justified(threads: map<nat, Pc>, cause: Option<Cause>) {
    forall t :: t in threads && Closing(threads[t]) ==>
      cause.Some? && cause.value.t == t && forall id :: id in Left(threads[t]) ==> Wants(cause.value.target, cause.value.expired, id)
  }

  lemma LockTakesTheWanted(g: State, t: nat, pc: Pc, pick: Pick)
    requires pc.CloseLock?
    ensures var e := Execute(g, t, pc, pick);
            e.Next? ==> Closing(e.pc) && e.g.table == g.table && e.g.heap == g.heap
                        && forall id :: id in Left(e.pc) <==> id in g.table && Wants(pc.target, pick.expired, id)
  {
  }

  lemma CloseWantsNoMore(g: State, t: nat, pc: Pc, pick: Pick)
    requires Closing(pc)
    ensures var e := Execute(g, t, pc, pick); e.Next? ==> (Closing(e.pc) || e.pc.End?) && Left(e.pc) <= Left(pc)
  {
  }

  lemma OthersDoNotClose(g: State, t: nat, pc: Pc, pick: Pick)
    requires !IsClosePc(pc)
    ensures var e := Execute(g, t, pc, pick); e.Next? ==> !Closing(e.pc)
  {
  }

  lemma StepIsJustified(w: World, step: Step, cause: Option<Cause>)
    requires Safe(w) && Justified(w.threads, cause) && Do(w, step).Some?
    ensures Justified(Do(w, step).value.threads,
                      if Locks(w, step) then Some(Cause(step.t, w.threads[step.t].target, step.pick.expired)) else cause)
  {
    if step.Act? && step.t in w.threads && !w.threads[step.t].End? {
      var pc := w.threads[step.t];
      assert ThreadOk(w.g, step.t, pc);
      if pc.CloseLock? {
        LockTakesTheWanted(w.g, step.t, pc, step.pick);
        forall u | u in w.threads ensures !Closing(w.threads[u]) {
          assert ThreadOk(w.g, u, w.threads[u]);
        }
      } else if Closing(pc) {
        CloseWantsNoMore(w.g, step.t, pc, step.pick);
      } else {
        OthersDoNotClose(w.g, step.t, pc, step.pick);
      }
    }
  }

  lemma {:induction false} RunIsJustified(w: World, steps: seq<Step>, cause: Option<Cause>)
    requires Safe(w) && Justified(w.threads, cause) && Exec(w, steps).Some?
    ensures Safe(Exec(w, steps).value) && Justified(Exec(w, steps).value.threads, LastClose(w, steps, cause))
    decreases steps
  {
    if steps != [] {
      var next := if Locks(w, steps[0]) then Some(Cause(steps[0].t, w.threads[steps[0].t].target, steps[0].pick.expired)) else cause;
      StepIsJustified(w, steps[0], cause);
      StepIsSafe(w, steps[0]);
      RunIsJustified(Do(w, steps[0]).value, steps[1..], next);
    }
  }

  /** Only a close takes a session out of the table or closes its channel. */
  lemma OnlyClosesRemove(g: State, t: nat, pc: Pc, pick: Pick)
    ensures var e := Execute(g, t, pc, pick);
            e.Next? ==>
              && (forall id :: id in g.table && id !in e.g.table ==> Closing(pc) && id in Left(pc))
              && (forall r :: r in g.heap ==>
                    r in e.g.heap
                    && (e.g.heap[r].queueClosed && !g.heap[r].queueClosed ==>
                          Closing(pc) && exists id :: id in Left(pc) && id in g.table && g.table[id] == r))
  {
  }

  /**
   In every interleaving, a session leaves the table, and its channel is closed, only by the last close
   that took the manager's lock, and only if that close asks for it: by its id, as one of all sessions, or
   as one that was found expired.
   */
  lemma RemovedOnlyOnRequest(maxSessions: int, steps: seq<Step>, step: Step, id: string)
    requires Exec(Init(maxSessions), steps).Some? && Do(Exec(Init(maxSessions), steps).value, step).Some?
    requires var w := Exec(Init(maxSessions), steps).value;
             var w' := Do(w, step).value;
             && id in w.g.table
             && (id !in w'.g.table
                 || (w.g.table[id] in w.g.heap && w.g.table[id] in w'.g.heap
                     && !w.g.heap[w.g.table[id]].queueClosed && w'.g.heap[w.g.table[id]].queueClosed))
    ensures var cause := LastClose(Init(maxSessions), steps, None);
            && step.Act? && cause.Some? && cause.value.t == step.t
            && match cause.value.target
               case One(other) => other == id
               case All => true
               case Expired => id in cause.value.expired
  {
    RunIsJustified(Init(maxSessions), steps, None);
    var w := Exec(Init(maxSessions), steps).value;
    if step.Act? && !w.threads[step.t].End? {
      OnlyClosesRemove(w.g, step.t, w.threads[step.t], step.pick);
    }
  }

  // ----- What a close removes -----

  /** t works on its close at every state of the run but the last. */
  predicate Works(w: World, steps: seq<Step>, t: nat)
    requires Exec(w, steps).Some?
    decreases steps
  {
    steps == [] || (t in w.threads && Closing(w.threads[t]) && Works(Do(w, steps[0]).value, steps[1..], t))
  }

  predicate Closed(s: Session) { s.closed && s.queueClosed }

  /** How far the close of the wanted sessions has come, when it began with the given table. */
  ghost predicate Halfway(table: map<string, nat>, wanted: set<string>, g: State, pc: Pc) {
    && wanted <= table.Keys && Left(pc) <= wanted && (Closing(pc) || pc.End?)
    && (forall id :: id in g.table <==> id in table && (id !in wanted || id in Left(pc)))
    && (forall id :: id in g.table ==> g.table[id] == table[id])
    && (forall id :: id in wanted ==> table[id] in g.heap)
    && (forall id :: id in wanted && id !in Left(pc) ==> Closed(g.heap[table[id]]))
    && (pc.End? ==> g.victim.None?)
    && (pc.CloseQueue? ==> g.heap[table[pc.id]].closed)
    && (pc.CloseUnguard? || pc.CloseDelete? ==> Closed(g.heap[table[pc.id]]))
  }

  lemma ChoosingGoesOn(table: map<string, nat>, wanted: set<string>, g: State, t: nat, pc: Pc, pick: Pick)
    requires HeapOk(g) && ThreadOk(g, t, pc) && pc.CloseNext? && Halfway(table, wanted, g, pc)
    ensures var e := CloseStep(g, t, pc, pick); e.Next? ==> Halfway(table, wanted, e.g, e.pc)
  {
    if pick.id in pc.ids {
      assert pc.ids - {pick.id} + {pick.id} == pc.ids;
    }
  }

  lemma DeletingGoesOn(table: map<string, nat>, wanted: set<string>, g: State, t: nat, pc: Pc, pick: Pick)
    requires HeapOk(g) && ThreadOk(g, t, pc) && pc.CloseDelete? && Halfway(table, wanted, g, pc)
    ensures var e := CloseStep(g, t, pc, pick); e.Next? ==> Halfway(table, wanted, e.g, e.pc)
  {
  }

  /** The session in hand changes, and no other. */
  lemma MarkingGoesOn(table: map<string, nat>, wanted: set<string>, g: State, pc: Pc, g': State, pc': Pc, s: Session)
    requires pc.CloseGuard? || pc.CloseMark? || pc.CloseQueue? || pc.CloseUnguard?
    requires Halfway(table, wanted, g, pc) && pc.id in g.table
    requires forall a, b :: a in table && b in table && table[a] == table[b] ==> a == b
    requires g' == g.(heap := g.heap[table[pc.id] := s], victim := g'.victim)
    requires pc'.CloseMark? || pc'.CloseQueue? || pc'.CloseUnguard? || pc'.CloseDelete?
    requires pc'.ids == pc.ids && pc'.id == pc.id
    requires pc'.CloseQueue? ==> s.closed
    requires pc'.CloseUnguard? || pc'.CloseDelete? ==> Closed(s)
    ensures Halfway(table, wanted, g', pc')
  {
    assert Left(pc') == Left(pc);
  }

  lemma CloseGoesOn(table: map<string, nat>, wanted: set<string>, g: State, t: nat, pc: Pc, pick: Pick)
    requires HeapOk(g) && ThreadOk(g, t, pc) && Closing(pc) && Halfway(table, wanted, g, pc)
    requires forall a, b :: a in table && b in table && table[a] == table[b] ==> a == b
    ensures var e := Execute(g, t, pc, pick); e.Next? ==> Halfway(table, wanted, e.g, e.pc)
  {
    var e := CloseStep(g, t, pc, pick);
    if e.Next? {
      if pc.CloseNext? {
        ChoosingGoesOn(table, wanted, g, t, pc, pick);
      } else if pc.CloseDelete? {
        DeletingGoesOn(table, wanted, g, t, pc, pick);
      } else {
        MarkedSession(g, t, pc, pick);
        MarkingGoesOn(table, wanted, g, pc, e.g, e.pc, e.g.heap[g.table[pc.id]]);
      }
    }
  }

  lemma MarkedSession(g: State, t: nat, pc: Pc, pick: Pick)
    requires (pc.CloseGuard? || pc.CloseMark? || pc.CloseQueue? || pc.CloseUnguard?) && ThreadOk(g, t, pc)
    ensures var e := CloseStep(g, t, pc, pick);
            e.Next? ==>
              && pc.id in g.table && g.table[pc.id] in e.g.heap
              && e.g == g.(heap := g.heap[g.table[pc.id] := e.g.heap[g.table[pc.id]]], victim := e.g.victim)
              && (e.pc.CloseMark? || e.pc.CloseQueue? || e.pc.CloseUnguard? || e.pc.CloseDelete?)
              && e.pc.ids == pc.ids && e.pc.id == pc.id
              && var s, s' := g.heap[g.table[pc.id]], e.g.heap[g.table[pc.id]];
                 && (e.pc.CloseQueue? ==> s'.closed)
                 && (e.pc.CloseUnguard? ==> s'.queueClosed && s'.closed == s.closed)
                 && (e.pc.CloseDelete? ==> s'.queueClosed == s.queueClosed && s'.closed == s.closed)
  {
    var e := CloseStep(g, t, pc, pick);
    if e.Next? && pc.CloseMark? {
      assert !g.heap[g.table[pc.id]].closed;
    }
    if e.Next? {
      var r := g.table[pc.id];
      assert e.g.heap == g.heap[r := e.g.heap[r]];
    }
  }

  lemma OthersLeaveItThere(table: map<string, nat>, wanted: set<string>, g: State, g': State, pc: Pc)
    requires Halfway(table, wanted, g, pc) && g'.table == g.table && g'.victim == g.victim
    requires forall r :: r in g.heap ==> r in g'.heap && g'.heap[r].closed == g.heap[r].closed && g'.heap[r].queueClosed == g.heap[r].queueClosed
    ensures Halfway(table, wanted, g', pc)
  {
  }

  lemma StepGoesOn(table: map<string, nat>, wanted: set<string>, w: World, t: nat, step: Step)
    requires Safe(w) && t in w.threads && Closing(w.threads[t]) && Halfway(table, wanted, w.g, w.threads[t]) && Do(w, step).Some?
    requires forall a, b :: a in table && b in table && table[a] == table[b] ==> a == b
    ensures var w' := Do(w, step).value; t in w'.threads && Halfway(table, wanted, w'.g, w'.threads[t])
  {
    var w' := Do(w, step).value;
    var pc := w.threads[t];
    assert ThreadOk(w.g, t, pc);
    match step
    case Enter(_, _) =>
    case Receive(_) => OthersLeaveItThere(table, wanted, w.g, w'.g, pc);
    case Act(u, pick) =>
      if u == t {
        CloseGoesOn(table, wanted, w.g, t, pc, pick);
      } else {
        var pcu := w.threads[u];
        assert ThreadOk(w.g, u, pcu);
        if !pcu.End? {
          ExecuteIsSafe(w.g, u, pcu, pick);
          OthersLeaveItThere(table, wanted, w.g, w'.g, pc);
        }
      }
  }

  lemma {:induction false} RunGoesOn(table: map<string, nat>, wanted: set<string>, w: World, t: nat, steps: seq<Step>)
    requires Safe(w) && t in w.threads && Halfway(table, wanted, w.g, w.threads[t])
    requires forall a, b :: a in table && b in table && table[a] == table[b] ==> a == b
    requires Exec(w, steps).Some? && Works(w, steps, t)
    ensures var w' := Exec(w, steps).value;
            Safe(w') && t in w'.threads && Halfway(table, wanted, w'.g, w'.threads[t])
    decreases steps
  {
    if steps != [] {
      StepIsSafe(w, steps[0]);
      StepGoesOn(table, wanted, w, t, steps[0]);
      RunGoesOn(table, wanted, Do(w, steps[0]).value, t, steps[1..]);
    }
  }

  /**
   In every interleaving, a close that has taken the lock and finished has removed exactly the sessions in
   the table that it was asked to remove, the one with its id, all of them, or those found expired, and
   has closed them; the others are in the table as before, and open.
   */
  lemma CloseRemovesExactly(maxSessions: int, before: seq<Step>, t: nat, pick: Pick, during: seq<Step>)
    requires Exec(Init(maxSessions), before).Some?
    requires var w := Exec(Init(maxSessions), before).value;
             && t in w.threads && w.threads[t].CloseLock? && Do(w, Act(t, pick)).Some?
             && var w1 := Do(w, Act(t, pick)).value;
                && Exec(w1, during).Some? && Works(w1, during, t)
                && t in Exec(w1, during).value.threads && Exec(w1, during).value.threads[t].End?
    ensures var w := Exec(Init(maxSessions), before).value;
            var g, target := Exec(Do(w, Act(t, pick)).value, during).value.g, w.threads[t].target;
            && (forall id :: id in g.table <==> id in w.g.table && !Wants(target, pick.expired, id))
            && (forall id :: id in g.table ==> g.table[id] == w.g.table[id] && g.table[id] in g.heap && Open(g.heap[g.table[id]]))
            && (forall id :: id in w.g.table && Wants(target, pick.expired, id) ==>
                  w.g.table[id] in g.heap && g.heap[w.g.table[id]].closed && g.heap[w.g.table[id]].queueClosed)
  {
    RunIsJustified(Init(maxSessions), before, None);
    var w := Exec(Init(maxSessions), before).value;
    var w1 := Do(w, Act(t, pick)).value;
    StepIsSafe(w, Act(t, pick));
    LockTakesTheWanted(w.g, t, w.threads[t], pick);
    var wanted := Left(w1.threads[t]);
    RunGoesOn(w.g.table, wanted, w1, t, during);
    var w2 := Exec(w1, during).value;
  }

  // ----- Nobody is stuck with a lock -----

  lemma AnotherAddress(heap: map<nat, Session>) returns (r: nat)
    ensures r !in heap
  {
    r := Above(heap.Keys);
  }

  lemma {:induction false} Above(keys: set<nat>) returns (r: nat)
    ensures forall k :: k in keys ==> k < r
    decreases |keys|
  {
    r := 0;
    if keys != {} {
      var k :| k in keys;
      var rest := Above(keys - {k});
      r := if k < rest then rest else k + 1;
      assert forall x :: x in keys ==> x == k || x in keys - {k};
    }
  }

  lemma CloseCanMove(g: State, t: nat, pc: Pc) returns (pick: Pick)
    requires HeapOk(g) && ThreadOk(g, t, pc) && Closing(pc)
    ensures Execute(g, t, pc, pick).Next?
  {
    pick := Pick(0, "", {});
    if pc.CloseNext? && pc.ids != {} {
      var id :| id in pc.ids;
      pick := Pick(0, id, {});
    } else if pc.CloseGuard? {
      assert g.table[pc.id] in g.heap && Open(g.heap[g.table[pc.id]]);
    }
  }

  lemma BroadcastCanMove(g: State, t: nat, pc: Pc) returns (pick: Pick)
    requires HeapOk(g) && ThreadOk(g, t, pc) && HoldsRead(pc)
    ensures Execute(g, t, pc, pick).Next?
  {
    pick := Pick(0, "", {});
    if pc.BroadcastNext? {
      if pc.todo != {} {
        var r :| r in pc.todo;
        pick := Pick(r, "", {});
      }
    } else {
      var id :| id in g.table && g.table[id] == pc.r;
      assert g.victim.None? && Open(g.heap[g.table[id]]);
    }
  }

  lemma CreateCanMove(g: State, t: nat, pc: Pc) returns (pick: Pick)
    requires pc.CreateInsert? || pc.CreateUnlock?
    ensures Execute(g, t, pc, pick).Next?
  {
    var r := AnotherAddress(g.heap);
    pick := Pick(r, "", {});
  }

  /** Some goroutine that is not done can take its next step. */
  ghost predicate CanMove(w: World, t: nat) {
    t in w.threads && !w.threads[t].End? && exists pick :: Execute(w.g, t, w.threads[t], pick).Next?
  }

  /**
   In every interleaving, whoever holds the manager's lock can take its next step, and if nobody holds it
   everybody can: there is no deadlock.
   */
  lemma NobodyIsStuck(maxSessions: int, steps: seq<Step>, t: nat)
    requires Exec(Init(maxSessions), steps).Some?
    requires var w := Exec(Init(maxSessions), steps).value; t in w.threads && !w.threads[t].End?
    ensures var w := Exec(Init(maxSessions), steps).value;
            if w.g.writer == Some(t) || t in w.g.readers || (w.g.writer.None? && w.g.readers == {}) then CanMove(w, t)
            else exists u :: (w.g.writer == Some(u) || u in w.g.readers) && CanMove(w, u)
  {
    RunIsJustified(Init(maxSessions), steps, None);
    var w := Exec(Init(maxSessions), steps).value;
    if w.g.writer == Some(t) || t in w.g.readers || (w.g.writer.None? && w.g.readers == {}) {
      HolderCanMove(w, t);
    } else {
      var u: nat;
      if w.g.writer.Some? {
        u := w.g.writer.value;
      } else {
        u :| u in w.g.readers;
      }
      assert ThreadOk(w.g, u, w.threads[u]);
      HolderCanMove(w, u);
    }
  }

  lemma HolderCanMove(w: World, t: nat)
    requires Safe(w) && t in w.threads && !w.threads[t].End?
    requires w.g.writer == Some(t) || t in w.g.readers || (w.g.writer.None? && w.g.readers == {})
    ensures CanMove(w, t)
  {
    var pc := w.threads[t];
    assert ThreadOk(w.g, t, pc);
    var pick := Pick(0, "", {});
    if HoldsRead(pc) {
      pick := BroadcastCanMove(w.g, t, pc);
    } else if Closing(pc) {
      pick := CloseCanMove(w.g, t, pc);
    } else if pc.CreateInsert? || pc.CreateUnlock? {
      pick := CreateCanMove(w.g, t, pc);
    } else {
      assert IsEntry(pc);
    }
    assert Execute(w.g, t, pc, pick).Next?;
  }

  /** How many more steps a close takes. */
  function StepsLeft(pc: Pc): nat {
    match pc
    case CloseNext(ids) => 6 * |ids| + 1
    case CloseGuard(ids, _) => 6 * |ids| + 6
    case CloseMark(ids, _) => 6 * |ids| + 5
    case CloseQueue(ids, _) => 6 * |ids| + 4
    case CloseUnguard(ids, _) => 6 * |ids| + 3
    case CloseDelete(ids, _) => 6 * |ids| + 2
    case _ => 0
  }

  predicate Nearer(pc: Pc, g': State, pc': Pc) {
    StepsLeft(pc') == StepsLeft(pc) - 1 && (StepsLeft(pc') == 0 <==> pc'.End?) && (pc'.End? ==> g'.writer.None?)
  }

  lemma ChoosingIsNearer(g: State, t: nat, pc: Pc, pick: Pick)
    requires pc.CloseNext? || pc.CloseDelete?
    ensures var e := CloseStep(g, t, pc, pick); e.Next? ==> Nearer(pc, e.g, e.pc)
  {
    if pc.CloseNext? && pick.id in pc.ids {
      assert |pc.ids - {pick.id}| == |pc.ids| - 1;
    }
  }

  /** Each step of a close brings it one step nearer to its end, at which it lets go of the lock. */
  lemma CloseEnds(g: State, t: nat, pc: Pc, pick: Pick)
    requires HeapOk(g) && ThreadOk(g, t, pc) && Closing(pc)
    ensures var e := Execute(g, t, pc, pick); e.Next? ==> Nearer(pc, e.g, e.pc)
  {
    if pc.CloseNext? || pc.CloseDelete? {
      ChoosingIsNearer(g, t, pc, pick);
    }
  }

  // ----- What a creation adds -----

  /** A creation, undisturbed: the id that it comes up with first is the new one, or taken. */
  function Creation(t: nat, first: string, id: string, r: nat): seq<Step> {
    var a := Act(t, Pick(r, id, {}));
    [Enter(t, CreateLock(first))] + ([a] + Insertion(t, first, id, r))
  }

  function Insertion(t: nat, first: string, id: string, r: nat): seq<Step> {
    var a := Act(t, Pick(r, id, {}));
    if first == id then [a] + ([a] + []) else [a] + ([a] + ([a] + []))
  }

  /** It adds an empty open session under the new id if there is room, and nothing otherwise. */
  lemma CreationAdds(w: World, t: nat, first: string, id: string, r: nat)
    requires t !in w.threads && w.g.writer.None? && w.g.readers == {} && id !in w.g.table && r !in w.g.heap
    requires first == id || (first in w.g.table && |w.g.table| < w.g.maxSessions)
    ensures Exec(w, Creation(t, first, id, r)).Some?
    ensures var g := Exec(w, Creation(t, first, id, r)).value.g;
            if |w.g.table| >= w.g.maxSessions then g == w.g
            else g == w.g.(table := w.g.table[id := r], created := w.g.created + 1,
                           heap := w.g.heap[r := Session(None, false, [], false, [], [], |w.g.broadcasts|)])
  {
    var pick := Pick(r, id, {});
    EnterStep(w, t, CreateLock(first), [Act(t, pick)] + Insertion(t, first, id, r));
    var w1 := w.(threads := w.threads[t := CreateLock(first)]);
    ActStep(w1, t, pick, Insertion(t, first, id, r));
    var w2 := World(w.g.(writer := Some(t)), w1.threads[t := CreateInsert(first)]);
    if first == id {
      InsertionAdds(w2, t, id, r);
    } else {
      ActStep(w2, t, pick, Insertion(t, id, id, r));
      InsertionAdds(World(w2.g, w2.threads[t := CreateInsert(id)]), t, id, r);
    }
    assert w.g.(writer := None) == w.g;
  }

  lemma InsertionAdds(w: World, t: nat, id: string, r: nat)
    requires t in w.threads && w.threads[t] == CreateInsert(id) && id !in w.g.table && r !in w.g.heap
    ensures Exec(w, Insertion(t, id, id, r)).Some?
    ensures var g := Exec(w, Insertion(t, id, id, r)).value.g;
            if |w.g.table| >= w.g.maxSessions then g == w.g.(writer := None)
            else g == w.g.(table := w.g.table[id := r], created := w.g.created + 1, writer := None,
                           heap := w.g.heap[r := Session(None, false, [], false, [], [], |w.g.broadcasts|)])
  {
    var pick := Pick(r, id, {});
    ActStep(w, t, pick, [Act(t, pick)] + []);
    var e := Execute(w.g, t, CreateInsert(id), pick);
    ActStep(World(e.g, w.threads[t := CreateUnlock]), t, pick, []);
  }

  // ----- Broadcasts one after the other -----

  /** At every state of the run, from w on, at most one broadcast is in progress. */
  predicate NeverOverlaps(w: World, steps: seq<Step>)
    requires Exec(w, steps).Some?
    decreases steps
  {
    (forall t, u :: t in w.g.readers && u in w.g.readers ==> t == u)
    && (steps != [] ==> NeverOverlaps(Do(w, steps[0]).value, steps[1..]))
  }

  lemma StepOverlaps(w: World, step: Step)
    requires Safe(w) && Do(w, step).Some? && !w.g.overlapped
    requires forall t, u :: t in w.g.readers && u in w.g.readers ==> t == u
    ensures var g := Do(w, step).value.g; g.overlapped <==> exists t, u :: t in g.readers && u in g.readers && t != u
  {
    if step.Act? && step.t in w.threads {
      var pc := w.threads[step.t];
      assert ThreadOk(w.g, step.t, pc);
      if pc.BroadcastLock? && w.g.writer.None? && w.g.readers != {} {
        var u :| u in w.g.readers;
        var g := Do(w, step).value.g;
        assert u in g.readers && step.t in g.readers && u != step.t;
      } else if !pc.End? {
        ExecuteAddsNoReader(w.g, step.t, pc, step.pick);
      }
    }
  }

  lemma ExecuteAddsNoReader(g: State, t: nat, pc: Pc, pick: Pick)
    requires ThreadOk(g, t, pc) && (pc.BroadcastLock? ==> g.readers == {} || g.writer.Some?)
    ensures var e := Execute(g, t, pc, pick);
            e.Next? ==> e.g.overlapped == g.overlapped && (e.g.readers <= g.readers || e.g.readers == {t})
  {
  }

  lemma {:induction false} RunOverlaps(w: World, steps: seq<Step>)
    requires Safe(w) && Exec(w, steps).Some? && !w.g.overlapped && NeverOverlaps(w, steps)
    ensures !Exec(w, steps).value.g.overlapped
    decreases steps
  {
    if steps != [] {
      StepIsSafe(w, steps[0]);
      StepOverlaps(w, steps[0]);
      var w' := Do(w, steps[0]).value;
      assert forall t, u :: t in w'.g.readers && u in w'.g.readers ==> t == u;
      RunOverlaps(w', steps[1..]);
    }
  }

  /**
   In every run in which at most one broadcast is in progress at a time, the attempts to queue for a session
   are for the broadcasts since its creation, one each and in order; once none is in progress, a session
   in the table has been through all of them. Each attempt queues unless 100 are waiting.
   */
  lemma OneBroadcastAtATime(maxSessions: int, steps: seq<Step>, r: nat)
    requires Exec(Init(maxSessions), steps).Some? && NeverOverlaps(Init(maxSessions), steps)
    requires r in Exec(Init(maxSessions), steps).value.g.heap
    ensures var g := Exec(Init(maxSessions), steps).value.g;
            var s := g.heap[r];
            && (forall i :: 0 <= i < |s.attempts| ==>
                  s.attempts[i].broadcast == s.bornAt + i && (s.attempts[i].kept <==> s.attempts[i].waiting < 100))
            && (r in g.table.Values && g.readers == {} ==> |s.attempts| == |g.broadcasts| - s.bornAt)
  {
    RunOverlaps(Init(maxSessions), steps);
    NotificationsArriveInOrder(maxSessions, steps, r);
  }
}
