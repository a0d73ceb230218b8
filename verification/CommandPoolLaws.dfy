/** What every run of the server keeps: deletion loses no request, and workers told to stop do stop. */
module CommandPoolLaws {
  import opened Wrappers
  import opened Sums
  import opened Jobs
  import opened CommandPool
  import opened CommandPoolInvariant
  import CommandTable
  import Tokenizer

  // ---------- Deletion ----------

  predicate Empty(unit: Unit) {
    unit.stack == [] && unit.outputs == map[]
    && forall w | 0 <= w < |unit.workers| :: !unit.workers[w].Running?
  }

  lemma NotHere(unit: Unit, jid: nat)
    requires Places(unit, jid) == 0
    ensures forall p | 0 <= p < |unit.stack| :: unit.stack[p].jid != jid
    ensures forall w | 0 <= w < |unit.workers| :: unit.workers[w].Running? ==> unit.workers[w].job.jid != jid
    ensures jid !in unit.outputs
  {
    hide Sum;
    SumPositive(unit.stack, IsJob(jid));
    SumPositive(unit.workers, Runs(jid));
    forall p | 0 <= p < |unit.stack|
      ensures unit.stack[p].jid != jid
    {
      assert IsJob(jid)(unit.stack[p]) == 0;
    }
    forall w | 0 <= w < |unit.workers|
      ensures unit.workers[w].Running? ==> unit.workers[w].job.jid != jid
    {
      assert Runs(jid)(unit.workers[w]) == 0;
    }
  }

  lemma NothingAnywhere(unit: Unit)
    requires forall jid: nat :: Places(unit, jid) == 0
    ensures Empty(unit)
  {
    hide Places;
    forall jid: nat
      ensures jid !in unit.outputs
    {
      NotHere(unit, jid);
    }
    if unit.stack != [] {
      NotHere(unit, unit.stack[0].jid);
    }
    forall w | 0 <= w < |unit.workers|
      ensures !unit.workers[w].Running?
    {
      if unit.workers[w].Running? {
        NotHere(unit, unit.workers[w].job.jid);
      }
    }
    assert unit.outputs.Keys == {};
  }

  lemma WriterFindsEmpty(world: World, s: State, uid: nat)
    requires Inv(world, s) && s.writing && uid < |s.units|
    ensures Empty(s.units[uid])
  {
    hide Sum, Places;
    NoReaders(s);
    forall jid: nat
      ensures Places(s.units[uid], jid) == 0
    {
      assert Places(s.units[uid], jid) <= Waiters(s, uid, jid);
      SumPositive(s.handlers, WaitsFor(uid, jid));
      assert forall h | 0 <= h < |s.handlers| :: HoldsRead()(s.handlers[h]) == 0;
    }
    NothingAnywhere(s.units[uid]);
  }

  /** Whoever holds the write lock finds every command idle: no input waits, none runs, and no
      result has not been collected. */
  lemma DeletionFindsNothing(world: World, es: seq<Event>, s: State)
    requires Run(world, INIT, es) == Some(s) && s.writing
    ensures forall uid | 0 <= uid < |s.units| :: Empty(s.units[uid])
    ensures forall h | 0 <= h < |s.handlers| :: !s.handlers[h].Waiting?
  {
    hide Run, Inv, Empty;
    InitInv(world);
    RunKeepsInv(world, INIT, es, s);
    forall uid | 0 <= uid < |s.units|
      ensures Empty(s.units[uid])
    {
      WriterFindsEmpty(world, s, uid);
    }
    assert LockInv(s) by { InvLock(world, s); }
    NoReaders(s);
    assert forall h | 0 <= h < |s.handlers| :: HoldsRead()(s.handlers[h]) == 0;
  }

  lemma InvLock(world: World, s: State)
    requires Inv(world, s)
    ensures LockInv(s) && TableInv(s) && Covered(s)
    ensures forall uid | 0 <= uid < |s.units| :: UnitOk(world, s.units[uid])
    ensures forall h | 0 <= h < |s.handlers| :: HandlerOk(s, s.handlers[h])
  {
  }

  lemma AllParked(world: World, unit: Unit)
    requires UnitOk(world, unit)
    ensures unit.parked <= |unit.workers|
    ensures unit.parked == |unit.workers| <==> forall w | 0 <= w < |unit.workers| :: unit.workers[w].Parked?
    ensures !unit.kill ==> unit.parked == 0
  {
    hide Sum;
    CountAll(unit.workers);
    SumPositive(unit.workers, IsParked());
  }

  lemma {:induction false} CountAll(workers: seq<Worker>)
    ensures Sum(workers, IsParked()) <= |workers|
    ensures Sum(workers, IsParked()) == |workers| <==> forall w | 0 <= w < |workers| :: workers[w].Parked?
  {
    if workers != [] {
      CountAll(workers[..|workers| - 1]);
    }
  }

  /** In every reachable state a command's counter is the number of its workers that have left,
      none of which has before it was told to. */
  lemma ParkedCountsWorkers(world: World, es: seq<Event>, s: State, uid: nat)
    requires Run(world, INIT, es) == Some(s) && uid < |s.units|
    ensures var unit := s.units[uid];
            && unit.parked == Sum(unit.workers, IsParked()) <= |unit.workers| == world.cores
            && (unit.parked == world.cores <==> forall w | 0 <= w < |unit.workers| :: unit.workers[w].Parked?)
            && (!unit.kill ==> unit.parked == 0)
  {
    hide Run, Inv, Sum;
    InitInv(world);
    RunKeepsInv(world, INIT, es, s);
    InvLock(world, s);
    AllParked(world, s.units[uid]);
  }

  /** A table entry is reset only by the handler that told its workers to stop, when all of them
      have left and nothing of the command is in use. */
  lemma EntryResetOnlyWhenIdle(world: World, s: State, e: Event, next: State, id: nat)
    requires Inv(world, s) && Step(world, s, e) == Some(next)
    requires id < |s.commands| && s.commands[id].Some?
    ensures id < |next.commands|
    ensures next.commands[id] != s.commands[id] ==>
              var uid := s.commands[id].value;
              && e.Act? && e.h < |s.handlers| && s.handlers[e.h] == Draining(id, uid)
              && next.commands[id] == None
              && Empty(s.units[uid])
              && forall w | 0 <= w < |s.units[uid].workers| :: s.units[uid].workers[w].Parked?
  {
    hide Sum, Places, WorkerStep, AcquireStep, ReleaseStep, ArriveStep, Empty, CommandTable.FirstFree;
    InvLock(world, s);
    if !e.Act? {
      TableUntouched(world, s, e, next);
    } else {
      var uid := s.commands[id].value;
      assert HandlerOk(s, s.handlers[e.h]);
      if s.handlers[e.h].Placing? {
        PlaceEntries(s.commands, s.handlers[e.h].uid);
      } else if next.commands[id] != s.commands[id] {
        LockUpdate(s, e.h, s.handlers[e.h]);
        AllParked(world, s.units[uid]);
        WriterFindsEmpty(world, s, uid);
      }
    }
  }

  lemma TableUntouched(world: World, s: State, e: Event, next: State)
    requires Step(world, s, e) == Some(next) && !e.Act?
    ensures next.commands == s.commands
  {
  }

  /** While a request waits, every worker of its command is in its loop. */
  lemma WaitingMeansLive(world: World, es: seq<Event>, s: State, h: nat)
    requires Run(world, INIT, es) == Some(s) && h < |s.handlers| && s.handlers[h].Waiting?
    ensures s.handlers[h].uid < |s.units| && !s.units[s.handlers[h].uid].kill
    ensures forall w | 0 <= w < |s.units[s.handlers[h].uid].workers| ::
              !s.units[s.handlers[h].uid].workers[w].Leaving? && !s.units[s.handlers[h].uid].workers[w].Parked?
  {
    hide Run, Inv, Sum;
    InitInv(world);
    RunKeepsInv(world, INIT, es, s);
    InvLock(world, s);
    assert HandlerOk(s, s.handlers[h]);
    assert UnitOk(world, s.units[s.handlers[h].uid]);
  }

  // ---------- The stop handshake ----------

  function StepsToPark(): Worker -> nat {
    (w: Worker) => match w
                   case Testing => 2
                   case Popping => 3
                   case Running(_) => 3
                   case Leaving => 1
                   case Parked => 0
  }

  function StopWork(unit: Unit): nat {
    Sum(unit.workers, StepsToPark())
  }

  predicate IsWorkerEvent(e: Event, uid: nat) {
    !e.Arrive? && !e.Acquire? && !e.Act? && !e.Release? && e.uid == uid
  }

  lemma DrainingWorkerStep(world: World, unit: Unit, e: Event, next: Unit)
    requires Empty(unit) && unit.kill && !e.Arrive? && !e.Acquire? && !e.Act? && !e.Release?
    requires WorkerStep(world, unit, e) == Some(next)
    ensures StopWork(next) < StopWork(unit)
  {
    hide Sum;
    assert next.workers == unit.workers[e.w := next.workers[e.w]];
    SumUpdate(unit.workers, e.w, next.workers[e.w], StepsToPark());
  }

  /** While a handler drains a command, no other handler touches it. */
  lemma OthersLeaveWorkers(world: World, s: State, h: nat, e: Event, next: State)
    requires s.writing && LockInv(s) && h < |s.handlers| && s.handlers[h].Draining? && s.handlers[h].uid < |s.units|
    requires Step(world, s, e) == Some(next) && e != Act(h) && !IsWorkerEvent(e, s.handlers[h].uid)
    ensures h < |next.handlers| && next.handlers[h] == s.handlers[h]
    ensures var uid := s.handlers[h].uid;
            uid < |next.units| && next.units[uid].workers == s.units[uid].workers
  {
    hide Sum, WorkerStep, CommandTable.Place, CommandTable.Clear;
  }

  lemma HandshakeStep(world: World, s: State, h: nat, e: Event, next: State)
    requires Inv(world, s) && h < |s.handlers| && s.handlers[h].Draining?
    requires Step(world, s, e) == Some(next) && e != Act(h)
    ensures var uid := s.handlers[h].uid;
            && h < |next.handlers| && next.handlers[h] == s.handlers[h]
            && uid < |s.units| && uid < |next.units|
            && (if IsWorkerEvent(e, uid) then StopWork(next.units[uid]) < StopWork(s.units[uid])
                else next.units[uid].workers == s.units[uid].workers)
  {
    hide Inv, Sum, Places, Empty, LockInv, TableInv, WorkerStep, ActStep, AcquireStep, ReleaseStep, ArriveStep, StopWork;
    InvLock(world, s);
    var uid := s.handlers[h].uid;
    assert HandlerOk(s, s.handlers[h]);
    assert s.writing by { DrainingWrites(s, h); }
    if IsWorkerEvent(e, uid) {
      WriterFindsEmpty(world, s, uid);
      DrainingWorkerStep(world, s.units[uid], e, next.units[uid]);
    } else {
      OthersLeaveWorkers(world, s, h, e, next);
    }
  }

  lemma DrainingWrites(s: State, h: nat)
    requires LockInv(s) && h < |s.handlers| && s.handlers[h].Draining?
    ensures s.writing
  {
    hide Sum;
    SumAt(s.handlers, h, HoldsWrite());
  }

  function WorkerSteps(es: seq<Event>, uid: nat): nat {
    if es == [] then 0 else (if IsWorkerEvent(es[0], uid) then 1 else 0) + WorkerSteps(es[1..], uid)
  }

  lemma {:induction false} HandshakeRun(world: World, s: State, h: nat, es: seq<Event>, last: State)
    requires Inv(world, s) && h < |s.handlers| && s.handlers[h].Draining?
    requires Run(world, s, es) == Some(last) && Act(h) !in es
    ensures var uid := s.handlers[h].uid;
            && h < |last.handlers| && last.handlers[h] == s.handlers[h]
            && uid < |s.units| && uid < |last.units|
            && WorkerSteps(es, uid) + StopWork(last.units[uid]) <= StopWork(s.units[uid])
    decreases |es|
  {
    hide Step, Inv, Sum, IsWorkerEvent;
    if es == [] {
      InvLock(world, s);
      assert HandlerOk(s, s.handlers[h]);
    } else {
      var next := Step(world, s, es[0]).value;
      HandshakeStep(world, s, h, es[0], next);
      StepKeepsInv(world, s, es[0], next);
      HandshakeRun(world, next, h, es[1..], last);
    }
  }

  /** From the moment a handler has told a command's workers to stop, they take at most three
      steps each in all; while some are left, each of them can take one, and once none is left
      the handler resets the entry. */
  lemma HandshakeEnds(world: World, before: seq<Event>, s: State, h: nat, es: seq<Event>, last: State)
    requires Run(world, INIT, before) == Some(s) && h < |s.handlers| && s.handlers[h].Draining?
    requires Run(world, s, es) == Some(last) && Act(h) !in es
    ensures var uid := s.handlers[h].uid;
            && uid < |last.units| && h < |last.handlers| && last.handlers[h] == s.handlers[h]
            && WorkerSteps(es, uid) <= 3 * world.cores
            && (if last.units[uid].parked == world.cores then Step(world, last, Act(h)).Some?
                else exists e :: IsWorkerEvent(e, uid) && Step(world, last, e).Some?)
  {
    hide Step, Inv, Sum, Run, WorkerSteps, IsWorkerEvent;
    var uid := s.handlers[h].uid;
    InitInv(world);
    RunKeepsInv(world, INIT, before, s);
    HandshakeRun(world, s, h, es, last);
    RunKeepsInv(world, s, es, last);
    InvLock(world, s);
    InvLock(world, last);
    assert HandlerOk(last, last.handlers[h]);
    assert UnitOk(world, s.units[uid]);
    SumBound(s.units[uid].workers, StepsToPark(), 3);
    var unit := last.units[uid];
    AllParked(world, unit);
    if unit.parked == world.cores {
      DrainEnabled(world, last, h);
    } else {
      var w :| 0 <= w < |unit.workers| && !unit.workers[w].Parked?;
      var e := WorkerCanStep(world, last, uid, w);
    }
  }

  lemma DrainEnabled(world: World, s: State, h: nat)
    requires h < |s.handlers| && s.handlers[h].Draining? && s.handlers[h].uid < |s.units|
    requires s.units[s.handlers[h].uid].parked == |s.units[s.handlers[h].uid].workers|
    ensures Step(world, s, Act(h)).Some?
  {
  }

  lemma WorkerCanStep(world: World, s: State, uid: nat, w: nat) returns (e: Event)
    requires uid < |s.units| && w < |s.units[uid].workers| && !s.units[uid].workers[w].Parked?
    ensures IsWorkerEvent(e, uid) && Step(world, s, e).Some?
  {
    hide Tokenizer.Expand, Tokenizer.Tokenise;
    match s.units[uid].workers[w]
    case Testing => e := TestKill(uid, w);
    case Popping => e := Pop(uid, w);
    case Running(_) => e := Finish(uid, w, None);
    case Leaving => e := Park(uid, w);
  }

  // ---------- The size of the table ----------

  /** The greatest number of commands in the table at once, over the states of a run. */
  function PeakLive(world: World, s: State, es: seq<Event>): nat
    decreases |es|
  {
    var now := CommandTable.Live(s.commands);
    if es == [] then now
    else match Step(world, s, es[0])
         case None => now
         case Some(next) =>
           var later := PeakLive(world, next, es[1..]);
           if now > later then now else later
  }

  lemma StepTable(world: World, s: State, e: Event, next: State)
    requires Step(world, s, e) == Some(next)
    ensures || next.commands == s.commands
            || (exists uid: nat :: next.commands == CommandTable.Place(s.commands, uid))
            || (exists id: nat :: next.commands == CommandTable.Clear(s.commands, id))
  {
    hide WorkerStep, CommandTable.Place, CommandTable.Clear;
  }

  lemma {:induction false} PeakFrom(world: World, s: State, es: seq<Event>, last: State)
    requires Run(world, s, es) == Some(last)
    ensures var peak := PeakLive(world, s, es);
            |last.commands| == if peak > |s.commands| then peak else |s.commands|
    decreases |es|
  {
    hide Step, CommandTable.Live, CommandTable.Place, CommandTable.Clear;
    CommandTable.LiveBound(s.commands);
    if es != [] {
      var next := Step(world, s, es[0]).value;
      PeakFrom(world, next, es[1..], last);
      StepTable(world, s, es[0], next);
      CommandTable.LiveBound(next.commands);
      PeakIsLater(world, next, es[1..]);
      if uid: nat :| next.commands == CommandTable.Place(s.commands, uid) {
        CommandTable.PlaceCounts(s.commands, uid);
      } else if id: nat :| next.commands == CommandTable.Clear(s.commands, id) {
        CommandTable.ClearCounts(s.commands, id);
      }
    }
  }

  lemma PeakIsLater(world: World, s: State, es: seq<Event>)
    ensures PeakLive(world, s, es) >= CommandTable.Live(s.commands)
  {
  }

  /** In every run the table is as long as the greatest number of commands that were in it at once. */
  lemma TableLengthIsPeak(world: World, es: seq<Event>, s: State)
    requires Run(world, INIT, es) == Some(s)
    ensures |s.commands| == PeakLive(world, INIT, es)
  {
    hide Run, PeakLive;
    PeakFrom(world, INIT, es, s);
  }

  // ---------- The stack ----------

  /** The newest input is run first: a worker that pops right after a push gets what was pushed, and
      the stack is again as it was. */
  lemma NewestFirst(world: World, s: State, h: nat, pushed: State, w: nat)
    requires Step(world, s, Act(h)) == Some(pushed) && h < |s.handlers| && s.handlers[h].Looking?
    requires pushed.handlers[h].Waiting?
    requires var uid := pushed.handlers[h].uid; w < |s.units[uid].workers| && s.units[uid].workers[w].Popping?
    ensures var Waiting(uid, jid, input) := pushed.handlers[h];
            var unit := s.units[uid];
            && s.commands[s.handlers[h].cid] == Some(uid)
            && Step(world, pushed, Pop(uid, w)) ==
               Some(s.(units := s.units[uid := unit.(workers := unit.workers[w := Running(Job(jid, input))])],
                       handlers := pushed.handlers))
  {
    var Waiting(uid, jid, input) := pushed.handlers[h];
    var unit := s.units[uid];
    assert pushed.units[uid].stack[..|unit.stack|] == unit.stack;
    var after := unit.(workers := unit.workers[w := Running(Job(jid, input))]);
    assert pushed.units[uid := after] == s.units[uid := after];
  }
}
