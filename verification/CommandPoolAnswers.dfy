/** When a waiting request can be answered, and what becomes of one whose job has been lost. */
module CommandPoolAnswers {
  import opened Wrappers
  import opened Sums
  import opened Jobs
  import opened CommandPool
  import opened CommandPoolInvariant
  import opened CommandPoolLaws
  import opened CommandPoolRequests
  import opened CommandPoolScenarios
  import opened CommandPoolReplies
  import CommandTable
  import Tokenizer
  import Codec

  // ---------- Runs of the workers alone ----------

  /** What running each command line gives is one of the captures the shell may give. */
  ghost predicate Honest(world: World, run: string -> RunResult) {
    forall line | run(line).Some? :: world.shell(line, run(line).value)
  }

  function LineOf(unit: Unit, w: nat): string
    requires w < |unit.workers| && unit.workers[w].Running?
  {
    var job := unit.workers[w].job;
    Tokenizer.Expand(Tokenizer.Tokenise(unit.template), w, job.jid, job.input)
  }

  /** A step of one of the command's workers; a job that ends has the result `run` gives it. */
  predicate WorkerEvent(s: State, uid: nat, run: string -> RunResult, e: Event) {
    && IsWorkerEvent(e, uid)
    && (e.Finish? ==> uid < |s.units| && e.w < |s.units[uid].workers| && s.units[uid].workers[e.w].Running?
                      && e.result == run(LineOf(s.units[uid], e.w)))
  }

  ghost predicate WorkersRun(world: World, s: State, uid: nat, run: string -> RunResult, es: seq<Event>, last: State)
    decreases |es|
  {
    if es == [] then last == s
    else WorkerEvent(s, uid, run, es[0]) && Step(world, s, es[0]).Some?
         && WorkersRun(world, Step(world, s, es[0]).value, uid, run, es[1..], last)
  }

  /** The workers of its command can bring the request to its result without anyone's help. */
  ghost predicate Answerable(world: World, s: State, h: nat, run: string -> RunResult)
    requires h < |s.handlers| && s.handlers[h].Waiting?
  {
    exists es, last :: WorkersRun(world, s, s.handlers[h].uid, run, es, last) && Step(world, last, Act(h)).Some?
  }

  lemma WorkersRunFirst(world: World, s: State, uid: nat, run: string -> RunResult, e: Event, next: State,
                        es: seq<Event>, last: State)
    requires WorkerEvent(s, uid, run, e) && Step(world, s, e) == Some(next) && WorkersRun(world, next, uid, run, es, last)
    ensures WorkersRun(world, s, uid, run, [e] + es, last)
  {
    hide Step, WorkerEvent;
    assert ([e] + es)[1..] == es;
  }

  // ---------- Towards an answer ----------

  /** How far worker 0 is from popping. */
  function ToPop(worker: Worker): nat {
    match worker case Running(_) => 2 case Testing => 1 case _ => 0
  }

  function FirstToPop(unit: Unit): nat {
    if unit.workers == [] then 0 else ToPop(unit.workers[0])
  }

  lemma RunsAt(unit: Unit, jid: nat) returns (w: nat)
    requires Places(unit, jid) > 0 && jid !in unit.outputs && unit.stack == []
    ensures w < |unit.workers| && unit.workers[w].Running? && unit.workers[w].job.jid == jid
  {
    hide Sum;
    SumPositive(unit.stack, IsJob(jid));
    SumPositive(unit.workers, Runs(jid));
    w :| 0 <= w < |unit.workers| && Runs(jid)(unit.workers[w]) > 0;
  }

  /** The next step of worker 0 towards popping. */
  function WorkerMove(unit: Unit, uid: nat, run: string -> RunResult): Event
    requires unit.workers != []
  {
    match unit.workers[0]
    case Testing => TestKill(uid, 0)
    case Running(_) => Finish(uid, 0, run(LineOf(unit, 0)))
    case _ => Pop(uid, 0)
  }

  lemma MoveWorker(world: World, s: State, uid: nat, run: string -> RunResult)
    requires Honest(world, run) && uid < |s.units| && s.units[uid].workers != [] && !s.units[uid].kill
    requires s.units[uid].stack != [] && !s.units[uid].workers[0].Leaving? && !s.units[uid].workers[0].Parked?
    ensures var e := WorkerMove(s.units[uid], uid, run);
            && WorkerEvent(s, uid, run, e) && Step(world, s, e).Some?
            && var next := Step(world, s, e).value;
               && next == s.(units := s.units[uid := next.units[uid]])
               && next.units[uid].workers != []
               && (|next.units[uid].stack| < |s.units[uid].stack|
                   || (next.units[uid].stack == s.units[uid].stack
                       && ToPop(next.units[uid].workers[0]) < ToPop(s.units[uid].workers[0])))
  {
    hide Tokenizer.Expand, Tokenizer.Tokenise;
  }

  lemma FinishStores(world: World, s: State, uid: nat, w: nat, run: string -> RunResult) returns (e: Event, next: State)
    requires Honest(world, run) && uid < |s.units| && w < |s.units[uid].workers| && s.units[uid].workers[w].Running?
    ensures WorkerEvent(s, uid, run, e) && Step(world, s, e) == Some(next) && next.handlers == s.handlers
    ensures |next.units| == |s.units| && s.units[uid].workers[w].job.jid in next.units[uid].outputs
  {
    hide Tokenizer.Expand, Tokenizer.Tokenise;
    e := Finish(uid, w, run(LineOf(s.units[uid], w)));
    next := Step(world, s, e).value;
  }

  lemma AnswerEnabledIff(world: World, s: State, h: nat)
    requires h < |s.handlers| && s.handlers[h].Waiting? && s.handlers[h].uid < |s.units|
    ensures Step(world, s, Act(h)).Some? <==> s.handlers[h].jid in s.units[s.handlers[h].uid].outputs
  {
  }

  /** A job that is somewhere in its command is still somewhere after a worker's step, and one that
      is nowhere stays nowhere. */
  lemma WorkerKeepsPlace(world: World, s: State, uid: nat, e: Event, next: State, jid: nat)
    requires Inv(world, s) && IsWorkerEvent(e, uid) && Step(world, s, e) == Some(next)
    ensures uid < |s.units| == |next.units| && next.handlers == s.handlers
    ensures Places(next.units[uid], jid) > 0 <==> Places(s.units[uid], jid) > 0
  {
    hide Sum, Tokenizer.Expand, Tokenizer.Tokenise, Covered, LockInv, TableInv, HandlerOk;
    WorkerKeepsUnit(world, s.units[uid], e, next.units[uid]);
    if e.Finish? && s.units[uid].workers[e.w].job.jid == jid {
      assert jid in next.units[uid].outputs;
      SumAt(s.units[uid].workers, e.w, Runs(jid));
    }
  }

  lemma {:induction false} CanBeAnswered(world: World, s: State, h: nat, run: string -> RunResult)
    returns (es: seq<Event>, last: State)
    requires Inv(world, s) && Honest(world, run) && world.cores > 0 && h < |s.handlers| && s.handlers[h].Waiting?
    requires var Waiting(uid, jid, _) := s.handlers[h]; uid < |s.units| && Places(s.units[uid], jid) > 0
    ensures WorkersRun(world, s, s.handlers[h].uid, run, es, last) && Step(world, last, Act(h)).Some?
    decreases |s.units[s.handlers[h].uid].stack|, FirstToPop(s.units[s.handlers[h].uid])
  {
    hide Sum, Inv, Places, Step, ToPop, WorkerMove, WorkerEvent, Honest;
    InvLock(world, s);
    var Waiting(uid, jid, input) := s.handlers[h];
    var unit := s.units[uid];
    assert HandlerOk(s, s.handlers[h]) && UnitOk(world, unit);
    if jid in unit.outputs {
      es, last := [], s;
      AnswerEnabledIff(world, s, h);
    } else if unit.stack == [] {
      var w := RunsAt(unit, jid);
      var e;
      e, last := FinishStores(world, s, uid, w, run);
      AnswerEnabledIff(world, last, h);
      es := [e] + [];
      WorkersRunFirst(world, s, uid, run, e, last, [], last);
    } else {
      MoveWorker(world, s, uid, run);
      var e := WorkerMove(unit, uid, run);
      var next := Step(world, s, e).value;
      StepKeepsInv(world, s, e, next);
      assert IsWorkerEvent(e, uid) by { EventOfWorker(s, uid, run, e); }
      WorkerKeepsPlace(world, s, uid, e, next, jid);
      es, last := CanBeAnswered(world, next, h, run);
      WorkersRunFirst(world, s, uid, run, e, next, es, last);
      es := [e] + es;
    }
  }

  lemma {:induction false} WorkersLeaveHandlers(world: World, s: State, uid: nat, run: string -> RunResult,
                                                es: seq<Event>, last: State)
    requires WorkersRun(world, s, uid, run, es, last)
    ensures last.handlers == s.handlers
    decreases |es|
  {
    hide WorkerStep;
    if es != [] {
      WorkersLeaveHandlers(world, Step(world, s, es[0]).value, uid, run, es[1..], last);
    }
  }

  lemma EventOfWorker(s: State, uid: nat, run: string -> RunResult, e: Event)
    requires WorkerEvent(s, uid, run, e)
    ensures IsWorkerEvent(e, uid)
  {
  }

  lemma {:induction false} NowhereStaysNowhere(world: World, s: State, uid: nat, jid: nat, run: string -> RunResult,
                                               es: seq<Event>, last: State)
    requires Inv(world, s) && uid < |s.units| && Places(s.units[uid], jid) == 0
    requires WorkersRun(world, s, uid, run, es, last)
    ensures uid < |last.units| && last.handlers == s.handlers && jid !in last.units[uid].outputs
    decreases |es|
  {
    hide Inv, Step, IsWorkerEvent;
    if es != [] {
      var next := Step(world, s, es[0]).value;
      StepKeepsInv(world, s, es[0], next);
      WorkerKeepsPlace(world, s, uid, es[0], next, jid);
      NowhereStaysNowhere(world, next, uid, jid, run, es[1..], last);
    }
  }

  /** Whatever running a command line gives, the workers can bring a waiting request to its result
      exactly when its command still has the job: on the stack, with a worker, or as a result. */
  lemma AnswerableIff(world: World, requests: seq<Codec.JobEvent>, s: State, h: nat, run: string -> RunResult)
    requires Reaches(world, requests, s) && Honest(world, run) && world.cores > 0
    requires h < |s.handlers| && s.handlers[h].Waiting?
    ensures s.handlers[h].uid < |s.units|
    ensures Answerable(world, s, h, run) <==> Places(s.units[s.handlers[h].uid], s.handlers[h].jid) > 0
  {
    hide Reaches, Inv, Sourced, Fits, Honest, Places, Step, WorkersRun;
    ReachedIsSourced(world, requests, s);
    InvLock(world, s);
    assert HandlerOk(s, s.handlers[h]);
    var Waiting(uid, jid, _) := s.handlers[h];
    if Places(s.units[uid], jid) > 0 {
      var es, last := CanBeAnswered(world, s, h, run);
    } else {
      forall es, last | WorkersRun(world, s, uid, run, es, last)
        ensures Step(world, last, Act(h)).None?
      {
        NowhereStaysNowhere(world, s, uid, jid, run, es, last);
        AnswerEnabledIff(world, last, h);
      }
    }
  }

  // ---------- Lost jobs ----------

  ghost predicate AllAnswerable(world: World, run: string -> RunResult, s: State) {
    forall h | 0 <= h < |s.handlers| && s.handlers[h].Waiting? :: Answerable(world, s, h, run)
  }

  lemma IdleHasNothing(world: World, template: string, jid: nat)
    ensures Places(Fresh(world, template), jid) == 0
  {
    hide Sum;
    SumPositive(Fresh(world, template).stack, IsJob(jid));
    SumPositive(Fresh(world, template).workers, Runs(jid));
  }

  lemma AnswersNeedDistinctIds(world: World, requests: seq<Codec.JobEvent>, run: string -> RunResult)
    requires Honest(world, run) && world.cores > 0
    requires forall s | Reaches(world, requests, s) :: AllAnswerable(world, run, s)
    ensures DistinctIds(requests)
  {
    hide Reaches, Honest, Places, Answerable, Commands;
    forall h, k | 0 <= h < |requests| && 0 <= k < |requests| && h != k && SameJob(requests[h], requests[k])
      ensures requests[h].cid >= Commands(requests)
    {
      if requests[h].cid < Commands(requests) {
        var c := SomeCommand(requests);
        var s, uid := Loss(world, requests, c, h, k);
        IdleHasNothing(world, requests[c].command, requests[k].jid);
        AnswerableIff(world, requests, s, k, run);
      }
    }
  }

  /** In all runs every waiting request can be brought to its result by the workers of its command
      exactly when no two requests have the same ids. */
  lemma AllAnswerableIff(world: World, requests: seq<Codec.JobEvent>, run: string -> RunResult)
    requires Honest(world, run) && world.cores > 0
    ensures (forall s | Reaches(world, requests, s) :: AllAnswerable(world, run, s)) <==> DistinctIds(requests)
  {
    hide Reaches, Honest, Places, Answerable, DistinctIds;
    if DistinctIds(requests) {
      forall s, h | Reaches(world, requests, s) && 0 <= h < |s.handlers| && s.handlers[h].Waiting?
        ensures Answerable(world, s, h, run)
      {
        DistinctIdsAreEnough(world, requests, s);
        AnswerableIff(world, requests, s, h, run);
      }
    }
    if forall s | Reaches(world, requests, s) :: AllAnswerable(world, run, s) {
      AnswersNeedDistinctIds(world, requests, run);
    }
  }

  /** Request `h` waits for a job of command `cid` that the command has not got, and nobody is about
      to ask for the same job. */
  ghost predicate Lost(s: State, h: nat, cid: nat) {
    && h < |s.handlers| && s.handlers[h].Waiting? && s.handlers[h].uid < |s.units|
    && cid < |s.commands| && s.commands[cid] == Some(s.handlers[h].uid)
    && Places(s.units[s.handlers[h].uid], s.handlers[h].jid) == 0
    && forall k | 0 <= k < |s.handlers| && (s.handlers[k].WantsRead? || s.handlers[k].Looking?) ::
         s.handlers[k].cid != cid || s.handlers[k].jid != s.handlers[h].jid
  }

  /** Two requests with ids that no third one has can end so: one is answered, and the other still
      waits for a command that is idle. */
  lemma LossIsPossible(world: World, requests: seq<Codec.JobEvent>, h: nat, k: nat)
    requires h < |requests| && k < |requests| && h != k && SameJob(requests[h], requests[k])
    requires requests[h].cid < Commands(requests) && world.cores > 0
    requires forall j | 0 <= j < |requests| && SameJob(requests[h], requests[j]) :: j == h || j == k
    ensures exists s, template ::
              && Reaches(world, requests, s) && Lost(s, k, requests[k].cid) && s.handlers[k].uid < |s.units|
              && s.units[s.handlers[k].uid] == Fresh(world, template)
  {
    hide Reaches, Lost, Places, Commands;
    var c := SomeCommand(requests);
    var s, uid := Loss(world, requests, c, h, k);
    IdleHasNothing(world, requests[c].command, requests[k].jid);
    AnsweredIsLost(world, requests, s, h, k, uid);
  }

  lemma AnsweredIsLost(world: World, requests: seq<Codec.JobEvent>, s: State, h: nat, k: nat, uid: nat)
    requires Reaches(world, requests, s) && h < |requests| == |s.handlers| && k < |requests| && requests[k].Input?
    requires s.handlers[h].Replied? && s.handlers[k] == Waiting(uid, requests[k].jid, requests[k].input)
    requires uid < |s.units| && Places(s.units[uid], requests[k].jid) == 0
    requires forall j | 0 <= j < |requests| && SameJob(requests[k], requests[j]) :: j == h || j == k
    ensures Lost(s, k, requests[k].cid)
  {
    hide Reaches, Inv, UnitAsked, AskedResult, Fits, Places;
    ReachedIsSourced(world, requests, s);
    assert Serves(world, s, requests, requests[k], s.handlers[k]);
    forall j | 0 <= j < |s.handlers| && (s.handlers[j].WantsRead? || s.handlers[j].Looking?)
      ensures s.handlers[j].cid != requests[k].cid || s.handlers[j].jid != requests[k].jid
    {
      assert Serves(world, s, requests, requests[j], s.handlers[j]);
    }
  }

  lemma LostReads(world: World, s: State, h: nat, cid: nat)
    requires Inv(world, s) && Lost(s, h, cid)
    ensures !s.writing && s.readers > 0
  {
    hide Sum, Places, Covered;
    SumAt(s.handlers, h, HoldsRead());
  }

  lemma StepKeepsLost(world: World, s: State, h: nat, cid: nat, e: Event, next: State)
    requires Inv(world, s) && Lost(s, h, cid) && Step(world, s, e) == Some(next)
    requires e.Arrive? && e.request.Input? ==> e.request.cid != cid || e.request.jid != s.handlers[h].jid
    ensures Lost(next, h, cid) && next.handlers[h] == s.handlers[h]
  {
    hide Inv, Sum, Places, CommandTable.Place, CommandTable.Clear, WorkerStep;
    LostReads(world, s, h, cid);
    InvLock(world, s);
    var Waiting(uid, jid, input) := s.handlers[h];
    match e
    case Arrive(_) =>
    case Acquire(_) =>
    case Release(_) =>
    case Act(k) =>
      SumAt(s.handlers, k, HoldsWrite());
      LostStays(world, s, h, cid, k, next);
    case _ =>
      if e.uid == uid {
        WorkerKeepsPlace(world, s, uid, e, next, jid);
      }
  }

  /** Under the read lock only a push could bring the job back, and none is for its ids. */
  lemma LostStays(world: World, s: State, h: nat, cid: nat, k: nat, next: State)
    requires TableInv(s) && Lost(s, h, cid) && k < |s.handlers| && ActStep(s, k) == Some(next)
    requires HoldsWrite()(s.handlers[k]) == 0
    ensures Lost(next, h, cid) && next.handlers[h] == s.handlers[h]
  {
    hide Sum;
    var Waiting(uid, jid, input) := s.handlers[h];
    if s.handlers[k].Looking? && next.handlers[k].Waiting? {
      var x := next.handlers[k];
      assert s.commands[s.handlers[k].cid] == Some(x.uid);
      SumPush(s.units[x.uid].stack, Job(x.jid, x.input), IsJob(jid));
    } else {
      assert jid !in s.units[uid].outputs;
    }
  }

  /** A lost request waits for ever unless its ids are used again, and all the while nobody has the
      write lock: no command can be added and none deleted. */
  lemma {:induction false} LostForEver(world: World, s: State, h: nat, cid: nat, es: seq<Event>, last: State)
    requires Inv(world, s) && Lost(s, h, cid) && Run(world, s, es) == Some(last)
    requires forall e | e in es && e.Arrive? && e.request.Input? ::
               e.request.cid != cid || e.request.jid != s.handlers[h].jid
    ensures Lost(last, h, cid) && last.handlers[h] == s.handlers[h]
    ensures !last.writing && Step(world, last, Act(h)).None?
    decreases |es|
  {
    hide Inv, Step, Lost;
    assert Lost(s, h, cid) ==> h < |s.handlers| && s.handlers[h].Waiting? by { LostWaits(s, h, cid); }
    if es == [] {
      LostReads(world, s, h, cid);
      LostCannotAct(world, s, h, cid);
    } else {
      var next := Step(world, s, es[0]).value;
      StepKeepsInv(world, s, es[0], next);
      StepKeepsLost(world, s, h, cid, es[0], next);
      LostForEver(world, next, h, cid, es[1..], last);
    }
  }

  lemma LostWaits(s: State, h: nat, cid: nat)
    requires Lost(s, h, cid)
    ensures h < |s.handlers| && s.handlers[h].Waiting?
  {
  }

  lemma LostCannotAct(world: World, s: State, h: nat, cid: nat)
    requires Lost(s, h, cid)
    ensures Step(world, s, Act(h)).None?
  {
    hide Sum;
  }
}
