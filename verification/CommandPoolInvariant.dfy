/** The server's invariant holds initially and every step keeps it. */
module CommandPoolInvariant {
  import opened Wrappers
  import opened Sums
  import opened Jobs
  import opened CommandPool
  import CommandTable
  import Codec

  lemma InitInv(world: World)
    ensures Inv(world, INIT)
  {
  }

  // ---------- The lock ----------

  lemma LockUpdate(s: State, h: nat, x: Handler)
    requires h < |s.handlers|
    ensures Sum(s.handlers[h := x], HoldsRead()) + HoldsRead()(s.handlers[h]) == Sum(s.handlers, HoldsRead()) + HoldsRead()(x)
    ensures Sum(s.handlers[h := x], HoldsWrite()) + HoldsWrite()(s.handlers[h]) == Sum(s.handlers, HoldsWrite()) + HoldsWrite()(x)
    ensures HoldsRead()(s.handlers[h]) <= Sum(s.handlers, HoldsRead())
    ensures HoldsWrite()(s.handlers[h]) <= Sum(s.handlers, HoldsWrite())
  {
    SumUpdate(s.handlers, h, x, HoldsRead());
    SumUpdate(s.handlers, h, x, HoldsWrite());
  }

  /** While one handler holds the write lock, no handler holds the read lock. */
  lemma NoReaders(s: State)
    requires LockInv(s) && s.writing
    ensures forall h | 0 <= h < |s.handlers| :: HoldsRead()(s.handlers[h]) == 0
  {
    hide Sum;
    SumPositive(s.handlers, HoldsRead());
  }

  lemma OneWriter(s: State, h: nat, k: nat)
    requires LockInv(s) && h < |s.handlers| && k < |s.handlers| && h != k && HoldsWrite()(s.handlers[h]) == 1
    ensures HoldsWrite()(s.handlers[k]) == 0
    ensures s.writing
  {
    hide Sum;
    SumAtTwo(s.handlers, h, k, HoldsWrite());
  }

  /** Under the read lock no listed unit is told to stop. */
  lemma ReaderSeesLive(s: State, h: nat, id: nat)
    requires LockInv(s) && TableInv(s) && h < |s.handlers| && HoldsRead()(s.handlers[h]) == 1
    requires id < |s.commands| && s.commands[id].Some?
    ensures !s.units[s.commands[id].value].kill
  {
    hide Sum;
    SumAt(s.handlers, h, HoldsRead());
    var uid := s.commands[id].value;
    if s.units[uid].kill {
      assert Draining(id, uid) in s.handlers;
      var k :| 0 <= k < |s.handlers| && s.handlers[k] == Draining(id, uid);
      SumAt(s.handlers, k, HoldsWrite());
    }
  }

  // ---------- Requests ----------

  lemma FreshUnit(world: World, template: string, jid: nat)
    ensures var unit := Unit(template, [], seq(world.cores, _ => Worker.Testing), map[], false, 0, false);
            UnitOk(world, unit) && Places(unit, jid) == 0
  {
    hide Sum;
    var workers := seq(world.cores, _ => Worker.Testing);
    SumPositive(workers, IsParked());
    SumPositive(workers, Runs(jid));
    SumPositive([], IsJob(jid));
    assert Sum([], IsJob(jid)) == 0;
  }

  lemma ArriveKeepsLock(world: World, s: State, request: Codec.JobEvent)
    requires LockInv(s)
    ensures LockInv(ArriveStep(world, s, request))
  {
    hide Sum;
    var added := ArriveStep(world, s, request).handlers[|s.handlers|];
    SumPush(s.handlers, added, HoldsRead());
    SumPush(s.handlers, added, HoldsWrite());
  }

  lemma ArriveKeepsCover(world: World, s: State, request: Codec.JobEvent)
    requires Covered(s)
    ensures Covered(ArriveStep(world, s, request))
  {
    hide Sum, Places;
    var next := ArriveStep(world, s, request);
    var added := next.handlers[|s.handlers|];
    forall uid, jid: nat | 0 <= uid < |next.units|
      ensures Places(next.units[uid], jid) <= Waiters(next, uid, jid)
    {
      SumPush(s.handlers, added, WaitsFor(uid, jid));
      if uid < |s.units| {
        assert Places(s.units[uid], jid) <= Waiters(s, uid, jid);
      } else {
        FreshUnit(world, request.command, jid);
      }
    }
  }

  lemma ArriveKeepsHandlers(world: World, s: State, request: Codec.JobEvent)
    requires forall h | 0 <= h < |s.handlers| :: HandlerOk(s, s.handlers[h])
    ensures var next := ArriveStep(world, s, request);
            forall h | 0 <= h < |next.handlers| :: HandlerOk(next, next.handlers[h])
  {
    var next := ArriveStep(world, s, request);
    forall h | 0 <= h < |next.handlers|
      ensures HandlerOk(next, next.handlers[h])
    {
      if h < |s.handlers| {
        assert HandlerOk(s, s.handlers[h]);
      }
    }
  }

  lemma ArriveKeepsTable(world: World, s: State, request: Codec.JobEvent)
    requires TableInv(s) && forall h | 0 <= h < |s.handlers| :: HandlerOk(s, s.handlers[h])
    ensures TableInv(ArriveStep(world, s, request))
  {
    var next := ArriveStep(world, s, request);
    assert forall h | 0 <= h < |s.handlers| && IsPlacing(s.handlers[h]) :: HandlerOk(s, s.handlers[h]);
    forall id | 0 <= id < |s.commands| && s.commands[id].Some? && s.units[s.commands[id].value].kill
      ensures Draining(id, s.commands[id].value) in next.handlers
    {
      assert next.handlers == s.handlers + [next.handlers[|s.handlers|]];
    }
  }

  lemma ArriveKeepsInv(world: World, s: State, request: Codec.JobEvent)
    requires Inv(world, s)
    ensures Inv(world, ArriveStep(world, s, request))
  {
    hide LockInv, UnitOk, HandlerOk, TableInv, Covered;
    ArriveKeepsLock(world, s, request);
    ArriveKeepsHandlers(world, s, request);
    ArriveKeepsTable(world, s, request);
    ArriveKeepsCover(world, s, request);
    if request.Command? {
      FreshUnit(world, request.command, 0);
    }
  }

  // ---------- Taking and releasing the lock ----------

  /** A handler changes without touching units or the table, and without beginning or ending a wait. */
  lemma HandlerMoves(world: World, s: State, h: nat, x: Handler, readers: nat, writing: bool)
    requires Inv(world, s) && h < |s.handlers| && !s.handlers[h].Waiting? && !x.Waiting? && !s.handlers[h].Draining?
    requires HandlerOk(s, x) && (IsPlacing(x) ==> IsPlacing(s.handlers[h]) && x.uid == s.handlers[h].uid)
    requires LockInv(s.(readers := readers, writing := writing, handlers := s.handlers[h := x]))
    ensures Inv(world, s.(readers := readers, writing := writing, handlers := s.handlers[h := x]))
  {
    hide Sum, Places, LockInv;
    var next := s.(readers := readers, writing := writing, handlers := s.handlers[h := x]);
    forall k | 0 <= k < |next.handlers|
      ensures HandlerOk(next, next.handlers[k])
    {
      assert HandlerOk(s, s.handlers[k]);
    }
    forall uid, jid: nat | 0 <= uid < |next.units|
      ensures Places(next.units[uid], jid) <= Waiters(next, uid, jid)
    {
      SumUpdate(s.handlers, h, x, WaitsFor(uid, jid));
      assert Places(s.units[uid], jid) <= Waiters(s, uid, jid);
    }
    forall id | 0 <= id < |s.commands| && s.commands[id].Some? && s.units[s.commands[id].value].kill
      ensures Draining(id, s.commands[id].value) in next.handlers
    {
      var d := Draining(id, s.commands[id].value);
      var k :| 0 <= k < |s.handlers| && s.handlers[k] == d;
      assert next.handlers[k] == d;
    }
  }

  lemma AcquireKeepsInv(world: World, s: State, h: nat, next: State)
    requires Inv(world, s) && h < |s.handlers| && AcquireStep(s, h) == Some(next)
    ensures Inv(world, next)
  {
    hide Sum, Places;
    assert HandlerOk(s, s.handlers[h]);
    LockUpdate(s, h, next.handlers[h]);
    assert next == s.(readers := next.readers, writing := next.writing, handlers := s.handlers[h := next.handlers[h]]);
    HandlerMoves(world, s, h, next.handlers[h], next.readers, next.writing);
  }

  lemma ReleaseKeepsInv(world: World, s: State, h: nat, next: State)
    requires Inv(world, s) && h < |s.handlers| && ReleaseStep(s, h) == Some(next)
    ensures Inv(world, next)
  {
    hide Sum, Places;
    assert HandlerOk(s, s.handlers[h]);
    LockUpdate(s, h, next.handlers[h]);
    assert next == s.(readers := next.readers, writing := next.writing, handlers := s.handlers[h := next.handlers[h]]);
    HandlerMoves(world, s, h, next.handlers[h], next.readers, next.writing);
  }

  // ---------- Under the lock ----------

  lemma LookKeepsInv(world: World, s: State, h: nat, next: State)
    requires Inv(world, s) && h < |s.handlers| && s.handlers[h].Looking? && ActStep(s, h) == Some(next)
    ensures Inv(world, next)
  {
    hide Sum;
    var Looking(cid, jid, input) := s.handlers[h];
    LockUpdate(s, h, next.handlers[h]);
    if next.handlers[h].NotFound? {
      HandlerMoves(world, s, h, next.handlers[h], s.readers, s.writing);
    } else {
      ReaderSeesLive(s, h, cid);
      PushKeepsInv(world, s, h, s.commands[cid].value, jid, input);
    }
  }

  lemma PushKeepsInv(world: World, s: State, h: nat, uid: nat, jid: nat, input: string)
    requires Inv(world, s) && h < |s.handlers| && s.handlers[h].Looking?
    requires uid < |s.units| && !s.units[uid].kill
    ensures var unit := s.units[uid];
            Inv(world, s.(units := s.units[uid := unit.(stack := unit.stack + [Job(jid, input)])],
                          handlers := s.handlers[h := Waiting(uid, jid, input)]))
  {
    hide Sum;
    var unit := s.units[uid];
    var x := Waiting(uid, jid, input);
    var next := s.(units := s.units[uid := unit.(stack := unit.stack + [Job(jid, input)])],
                   handlers := s.handlers[h := x]);
    LockUpdate(s, h, x);
    forall k | 0 <= k < |next.handlers|
      ensures HandlerOk(next, next.handlers[k])
    {
      assert HandlerOk(s, s.handlers[k]);
    }
    forall u, j: nat | 0 <= u < |next.units|
      ensures Places(next.units[u], j) <= Waiters(next, u, j)
    {
      assert Places(s.units[u], j) <= Waiters(s, u, j);
      SumUpdate(s.handlers, h, x, WaitsFor(u, j));
      SumPush(unit.stack, Job(jid, input), IsJob(j));
    }
    DrainingStay(s, h, next);
  }

  /** Handlers that drain a command stay where they are when another handler moves. */
  lemma DrainingStay(s: State, h: nat, next: State)
    requires h < |s.handlers| == |next.handlers| && !s.handlers[h].Draining?
    requires next.handlers == s.handlers[h := next.handlers[h]]
    ensures forall id, uid | Draining(id, uid) in s.handlers :: Draining(id, uid) in next.handlers
  {
    forall id, uid | Draining(id, uid) in s.handlers
      ensures Draining(id, uid) in next.handlers
    {
      var k :| 0 <= k < |s.handlers| && s.handlers[k] == Draining(id, uid);
      assert next.handlers[k] == Draining(id, uid);
    }
  }

  lemma AnswerKeepsInv(world: World, s: State, h: nat, next: State)
    requires Inv(world, s) && h < |s.handlers| && s.handlers[h].Waiting? && ActStep(s, h) == Some(next)
    ensures Inv(world, next)
  {
    hide Sum;
    var Waiting(uid, jid, input) := s.handlers[h];
    var x := next.handlers[h];
    LockUpdate(s, h, x);
    forall k | 0 <= k < |next.handlers|
      ensures HandlerOk(next, next.handlers[k])
    {
      assert HandlerOk(s, s.handlers[k]);
    }
    forall u, j: nat | 0 <= u < |next.units|
      ensures Places(next.units[u], j) <= Waiters(next, u, j)
    {
      assert Places(s.units[u], j) <= Waiters(s, u, j);
      SumUpdate(s.handlers, h, x, WaitsFor(u, j));
    }
    DrainingStay(s, h, next);
  }

  lemma StopKeepsInv(world: World, s: State, h: nat, next: State)
    requires Inv(world, s) && h < |s.handlers| && s.handlers[h].Stopping? && ActStep(s, h) == Some(next)
    ensures Inv(world, next)
  {
    hide Sum;
    var id := s.handlers[h].id;
    var x := next.handlers[h];
    LockUpdate(s, h, x);
    if x.Stopped? {
      HandlerMoves(world, s, h, x, s.readers, s.writing);
    } else {
      var uid := s.commands[id].value;
      NoReaders(s);
      forall k | 0 <= k < |next.handlers|
        ensures HandlerOk(next, next.handlers[k])
      {
        assert HandlerOk(s, s.handlers[k]);
        assert HoldsRead()(s.handlers[k]) == 0;
      }
      forall u, j: nat | 0 <= u < |next.units|
        ensures Places(next.units[u], j) <= Waiters(next, u, j)
      {
        assert Places(s.units[u], j) <= Waiters(s, u, j);
        SumUpdate(s.handlers, h, x, WaitsFor(u, j));
      }
      DrainingStay(s, h, next);
      assert next.handlers[h] == Draining(id, uid);
    }
  }

  lemma DrainKeepsInv(world: World, s: State, h: nat, next: State)
    requires Inv(world, s) && h < |s.handlers| && s.handlers[h].Draining? && ActStep(s, h) == Some(next)
    ensures Inv(world, next)
  {
    hide Sum, Places;
    var Draining(id, uid) := s.handlers[h];
    var x := next.handlers[h];
    LockUpdate(s, h, x);
    assert HandlerOk(s, s.handlers[h]);
    forall k | 0 <= k < |next.handlers|
      ensures HandlerOk(next, next.handlers[k])
    {
      assert HandlerOk(s, s.handlers[k]);
      if k != h {
        OneWriter(s, h, k);
      }
    }
    forall u, j: nat | 0 <= u < |next.units|
      ensures Places(next.units[u], j) <= Waiters(next, u, j)
    {
      assert Places(s.units[u], j) <= Waiters(s, u, j);
      SumUpdate(s.handlers, h, x, WaitsFor(u, j));
    }
    forall i | 0 <= i < |next.commands| && next.commands[i].Some? && next.units[next.commands[i].value].kill
      ensures Draining(i, next.commands[i].value) in next.handlers
    {
      var k :| 0 <= k < |s.handlers| && s.handlers[k] == Draining(i, s.commands[i].value);
      assert next.handlers[k] == s.handlers[k];
    }
  }

  lemma PlaceKeepsInv(world: World, s: State, h: nat, next: State)
    requires Inv(world, s) && h < |s.handlers| && s.handlers[h].Placing? && ActStep(s, h) == Some(next)
    ensures Inv(world, next)
  {
    hide Sum, CommandTable.FirstFree;
    var uid := s.handlers[h].uid;
    var x := next.handlers[h];
    LockUpdate(s, h, x);
    assert HandlerOk(s, s.handlers[h]);
    forall k | 0 <= k < |next.handlers|
      ensures HandlerOk(next, next.handlers[k])
    {
      assert HandlerOk(s, s.handlers[k]);
      if k != h {
        OneWriter(s, h, k);
      }
    }
    forall u, j: nat | 0 <= u < |next.units|
      ensures Places(next.units[u], j) <= Waiters(next, u, j)
    {
      assert Places(s.units[u], j) <= Waiters(s, u, j);
      SumUpdate(s.handlers, h, x, WaitsFor(u, j));
    }
    DrainingStay(s, h, next);
    PlaceEntries(s.commands, uid);
  }

  lemma PlaceEntries(commands: seq<Option<nat>>, uid: nat)
    ensures var placed := CommandTable.Place(commands, uid);
            && |placed| >= |commands|
            && (forall id | 0 <= id < |placed| && placed[id] != Some(uid) :: id < |commands| && placed[id] == commands[id])
            && (forall id | 0 <= id < |commands| && commands[id].Some? :: placed[id] == commands[id])
            && (forall id, other | 0 <= id < other < |placed| && placed[id] == placed[other] == Some(uid) :: Some(uid) in commands)
  {
    var id := CommandTable.FirstFree(commands);
    assert id < |commands| ==> commands[id].None?;
  }

  lemma ActKeepsInv(world: World, s: State, h: nat, next: State)
    requires Inv(world, s) && h < |s.handlers| && ActStep(s, h) == Some(next)
    ensures Inv(world, next)
  {
    hide Inv;
    match s.handlers[h]
    case Looking(_, _, _) => LookKeepsInv(world, s, h, next);
    case Waiting(_, _, _) => AnswerKeepsInv(world, s, h, next);
    case Stopping(_) => StopKeepsInv(world, s, h, next);
    case Draining(_, _) => DrainKeepsInv(world, s, h, next);
    case Placing(_) => PlaceKeepsInv(world, s, h, next);
    case _ =>
  }

  // ---------- Workers ----------

  /** A worker's step keeps its unit in order and never makes more of a job; all it can lose is a
      stored output, to a second result of the same job. */
  lemma WorkerKeepsUnit(world: World, unit: Unit, e: Event, next: Unit)
    requires UnitOk(world, unit)
    requires !e.Arrive? && !e.Acquire? && !e.Act? && !e.Release?
    requires WorkerStep(world, unit, e) == Some(next)
    ensures UnitOk(world, next) && next.kill == unit.kill && next.listed == unit.listed && next.template == unit.template
    ensures forall jid: nat ::
              Places(next, jid) == Places(unit, jid) -
                if e.Finish? && unit.workers[e.w].job.jid == jid && jid in unit.outputs then 1 else 0
  {
    hide Sum;
    var w := e.w;
    assert next.workers == unit.workers[w := next.workers[w]];
    SumUpdate(unit.workers, w, next.workers[w], IsParked());
    forall jid: nat
      ensures Places(next, jid) == Places(unit, jid) -
                if e.Finish? && unit.workers[e.w].job.jid == jid && jid in unit.outputs then 1 else 0
    {
      SumUpdate(unit.workers, w, next.workers[w], Runs(jid));
      if e.Pop? && unit.stack != [] {
        SumPop(unit.stack, IsJob(jid));
      }
    }
  }

  lemma WorkerKeepsInv(world: World, s: State, e: Event, next: State)
    requires Inv(world, s) && !e.Arrive? && !e.Acquire? && !e.Act? && !e.Release?
    requires Step(world, s, e) == Some(next)
    ensures Inv(world, next)
  {
    hide Sum, Places, WorkerStep, UnitOk;
    var unit := WorkerStep(world, s.units[e.uid], e).value;
    WorkerKeepsUnit(world, s.units[e.uid], e, unit);
    forall h | 0 <= h < |next.handlers|
      ensures HandlerOk(next, next.handlers[h])
    {
      assert HandlerOk(s, s.handlers[h]);
    }
    forall uid, jid: nat | 0 <= uid < |next.units|
      ensures Places(next.units[uid], jid) <= Waiters(next, uid, jid)
    {
      assert Places(s.units[uid], jid) <= Waiters(s, uid, jid);
    }
  }

  // ---------- Runs ----------

  lemma StepKeepsInv(world: World, s: State, e: Event, next: State)
    requires Inv(world, s) && Step(world, s, e) == Some(next)
    ensures Inv(world, next)
  {
    hide Inv, AcquireStep, ActStep, ReleaseStep, WorkerStep, ArriveStep;
    match e
    case Arrive(request) => ArriveKeepsInv(world, s, request);
    case Acquire(h) => AcquireKeepsInv(world, s, h, next);
    case Act(h) => ActKeepsInv(world, s, h, next);
    case Release(h) => ReleaseKeepsInv(world, s, h, next);
    case _ => WorkerKeepsInv(world, s, e, next);
  }

  lemma {:induction false} RunKeepsInv(world: World, s: State, es: seq<Event>, last: State)
    requires Inv(world, s) && Run(world, s, es) == Some(last)
    ensures Inv(world, last)
    decreases |es|
  {
    hide Inv, Step;
    if es != [] {
      var next := Step(world, s, es[0]).value;
      StepKeepsInv(world, s, es[0], next);
      RunKeepsInv(world, next, es[1..], last);
    }
  }
}
