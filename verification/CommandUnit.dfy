/** A command of the server as an object its workers and request handlers change in place. Each
    of its actions is one atomic step of the command pool. */
module CommandUnit {
  import opened Wrappers
  import opened Sums
  import opened Jobs
  import opened CommandPool
  import CommandPoolInvariant
  import CommandPoolLaws
  import TemplateLaws
  import Tokenizer

  class Command {
    const template: string
    var stack: seq<Job>
    var outputs: map<nat, RunResult>
    var kill: bool
    var parked: nat
    var workers: seq<Worker>

    constructor (template: string, cores: nat)
      ensures View() == Unit(template, [], seq(cores, _ => Worker.Testing), map[], false, 0, true)
    {
      this.template := template;
      stack, outputs, kill, parked := [], map[], false, 0;
      workers := seq(cores, _ => Worker.Testing);
    }

    ghost function View(): Unit
      reads this
    {
      Unit(template, stack, workers, outputs, kill, parked, true)
    }

    /** The newest input comes first. */
    method GetJob() returns (job: Option<Job>)
      modifies this`stack
      ensures if old(stack) == [] then job == None && stack == []
              else job == Some(old(stack)[|old(stack)| - 1]) && stack == old(stack)[..|old(stack)| - 1]
    {
      if stack == [] {
        return None;
      }
      job := Some(stack[|stack| - 1]);
      stack := stack[..|stack| - 1];
    }

    method InsertJob(jid: nat, input: string)
      modifies this`stack
      ensures stack == old(stack) + [Job(jid, input)]
    {
      stack := stack + [Job(jid, input)];
    }

    /** What worker `w` does up to and including its next access to shared state. `run` is what
        running a command line gives, if it can be spawned. */
    method StepWorker(w: nat, run: string -> RunResult, ghost world: World) returns (ghost e: Event)
      requires w < |workers| && !workers[w].Parked?
      requires forall line | run(line).Some? :: world.shell(line, run(line).value)
      modifies this
      ensures !e.Arrive? && !e.Acquire? && !e.Act? && !e.Release? && e.w == w
      ensures WorkerStep(world, old(View()), e) == Some(View())
      ensures e.Finish? ==>
                old(workers[w].Running?) &&
                var job := old(workers[w].job);
                e.result == run(Tokenizer.Expand(Tokenizer.Tokenise(template), w, job.jid, job.input))
    {
      hide Tokenizer.Expand, Tokenizer.Tokenise;
      match workers[w] {
        case Testing =>
          e := TestKill(0, w);
          workers := workers[w := if kill then Leaving else Popping];
        case Popping =>
          e := Pop(0, w);
          var job := GetJob();
          workers := workers[w := match job case Some(j) => Running(j) case None => Worker.Testing];
        case Running(job) =>
          var tokens := Tokenizer.New(template);
          var buffer := FillBuffer(tokens, w, job.jid, job.input);
          var result := run(buffer);
          e := Finish(0, w, result);
          outputs := outputs[job.jid := result];
          workers := workers[w := Worker.Testing];
        case Leaving =>
          e := Park(0, w);
          parked := parked + 1;
          workers := workers[w := Parked];
      }
    }

    /** The handler of `StopJob` between taking the write lock and resetting the entry. It only
        polls; `next` says which worker moves while it sleeps. */
    method Stop(next: Unit -> nat, run: string -> RunResult, ghost world: World)
      requires UnitOk(world, View()) && CommandPoolLaws.Empty(View())
      requires forall line | run(line).Some? :: world.shell(line, run(line).value)
      requires forall unit: Unit | unit.parked != |unit.workers| && UnitOk(world, unit) ::
                 next(unit) < |unit.workers| && !unit.workers[next(unit)].Parked?
      modifies this
      ensures kill && parked == |workers| == |old(workers)|
      ensures forall w | 0 <= w < |workers| :: workers[w].Parked?
      ensures stack == [] && outputs == map[]
    {
      hide UnitOk, Sum, WorkerStep, CommandPoolLaws.StopWork, CommandPoolLaws.Empty;
      EmptyUnit(View());
      Killed(world, View());
      kill := true;
      while parked != |workers|
        invariant kill && UnitOk(world, View()) && CommandPoolLaws.Empty(View())
        invariant stack == [] && outputs == map[] && |workers| == |old(workers)|
        decreases CommandPoolLaws.StopWork(View())
      {
        ghost var before := View();
        var w := next(Unit(template, stack, workers, outputs, kill, parked, true));
        var e := StepWorker(w, run, world);
        StopStep(world, before, e, View());
      }
      CommandPoolLaws.AllParked(world, View());
    }

    /** The handler of an input of which the command has no copy yet: it pushes the job and polls
        until its result is there, while the first worker moves. Whatever else is on its way, the
        result is the job's own, and all else is as if the worker had only ended what it was at. */
    method Answer(jid: nat, input: string, run: string -> RunResult, ghost world: World) returns (result: RunResult)
      requires UnitOk(world, View()) && Places(View(), jid) == 0 && workers != [] && !kill
      requires forall line | run(line).Some? :: world.shell(line, run(line).value)
      modifies this
      ensures result == run(Tokenizer.CommandLine(template, 0, jid, input))
      ensures UnitOk(world, View()) && !kill && stack == old(stack)
      ensures outputs == old(AfterCurrent(View(), run)) && workers == old(workers)[0 := Worker.Testing]
    {
      hide Sum, Places, WorkerStep, UnitOk, AfterCurrent, OnTheWay, Rank, Tokenizer.Expand, Tokenizer.Tokenise, Tokenizer.CommandLine;
      var job := Job(jid, input);
      TemplateLaws.ExpandTokenised(template, 0, jid, input);
      ghost var was := View();
      ghost var expected := run(Tokenizer.CommandLine(template, 0, jid, input));
      Pushed(world, was, job, run);
      InsertJob(jid, input);
      while jid !in outputs
        invariant UnitOk(world, View()) && !kill && workers != []
        invariant OnTheWay(View(), was, job, run, expected)
        decreases Rank(View(), was, job)
      {
        InLoop(world, View());
        ghost var before := View();
        var e := StepWorker(0, run, world);
        AnswerStep(world, before, e, View(), was, job, run, expected);
      }
      result := outputs[jid];
      Collected(world, View(), was, job, run, expected);
      outputs := outputs - {jid};
    }
  }

  lemma EmptyUnit(unit: Unit)
    requires CommandPoolLaws.Empty(unit)
    ensures unit.stack == [] && unit.outputs == map[]
  {
  }

  lemma Killed(world: World, unit: Unit)
    requires UnitOk(world, unit) && unit.listed
    ensures UnitOk(world, unit.(kill := true))
    ensures CommandPoolLaws.Empty(unit) ==> CommandPoolLaws.Empty(unit.(kill := true))
  {
    hide Sum;
  }

  /** No worker has left the loop of a command that has not been told to stop. */
  lemma InLoop(world: World, unit: Unit)
    requires UnitOk(world, unit) && !unit.kill
    ensures forall w | 0 <= w < |unit.workers| :: !unit.workers[w].Parked? && !unit.workers[w].Leaving?
  {
    hide Sum;
  }

  /** A worker of an idle command that was told to stop gets nearer to parking. */
  lemma StopStep(world: World, unit: Unit, e: Event, next: Unit)
    requires UnitOk(world, unit) && unit.kill && CommandPoolLaws.Empty(unit)
    requires !e.Arrive? && !e.Acquire? && !e.Act? && !e.Release?
    requires WorkerStep(world, unit, e) == Some(next)
    ensures UnitOk(world, next) && next.kill && CommandPoolLaws.Empty(next)
    ensures next.stack == [] && next.outputs == map[] && |next.workers| == |unit.workers|
    ensures CommandPoolLaws.StopWork(next) < CommandPoolLaws.StopWork(unit)
  {
    hide Sum, UnitOk;
    CommandPoolInvariant.WorkerKeepsUnit(world, unit, e, next);
    assert next.workers == unit.workers[e.w := next.workers[e.w]];
    SumUpdate(unit.workers, e.w, next.workers[e.w], CommandPoolLaws.StepsToPark());
  }

  // ---------- One more request ----------

  /** The outputs once worker 0 has ended what it runs. */
  function AfterCurrent(unit: Unit, run: string -> RunResult): map<nat, RunResult> {
    if unit.workers != [] && unit.workers[0].Running? then
      var job := unit.workers[0].job;
      unit.outputs[job.jid := run(Tokenizer.Expand(Tokenizer.Tokenise(unit.template), 0, job.jid, job.input))]
    else unit.outputs
  }

  /** A job pushed on the command `was` is on top of the stack, with worker 0, or among the outputs,
      and but for it the command is as it was or has what worker 0 was running. */
  predicate OnTheWay(unit: Unit, was: Unit, job: Job, run: string -> RunResult, expected: RunResult) {
    && unit.workers != [] && was.workers != [] && unit.template == was.template
    && unit.workers == was.workers[0 := unit.workers[0]]
    && job.jid !in AfterCurrent(was, run)
    && (if unit.stack == was.stack + [job] then AfterCurrent(unit, run) == AfterCurrent(was, run) && job.jid !in unit.outputs
        else && unit.stack == was.stack
             && (if unit.workers[0] == Running(job) then unit.outputs == AfterCurrent(was, run)
                 else unit.workers[0].Testing? && unit.outputs == AfterCurrent(was, run)[job.jid := expected]))
  }

  function Rank(unit: Unit, was: Unit, job: Job): nat {
    if unit.workers == [] then 0
    else match unit.workers[0]
         case Running(_) => if unit.stack == was.stack + [job] then 4 else 1
         case Popping => 2
         case _ => if unit.stack == was.stack + [job] then 3 else 0
  }

  lemma Pushed(world: World, unit: Unit, job: Job, run: string -> RunResult)
    requires UnitOk(world, unit) && unit.workers != [] && Places(unit, job.jid) == 0
    ensures var next := unit.(stack := unit.stack + [job]);
            UnitOk(world, next) && forall expected :: OnTheWay(next, unit, job, run, expected)
  {
    hide Sum, Tokenizer.Expand, Tokenizer.Tokenise;
    CommandPoolLaws.NotHere(unit, job.jid);
    assert unit.workers[0 := unit.workers[0]] == unit.workers;
  }

  lemma AnswerStep(world: World, unit: Unit, e: Event, next: Unit, was: Unit, job: Job, run: string -> RunResult,
                   expected: RunResult)
    requires UnitOk(world, unit) && !unit.kill && OnTheWay(unit, was, job, run, expected) && job.jid !in unit.outputs
    requires !e.Arrive? && !e.Acquire? && !e.Act? && !e.Release? && e.w == 0
    requires WorkerStep(world, unit, e) == Some(next)
    requires e.Finish? && unit.workers[0].Running? ==>
               var j := unit.workers[0].job;
               e.result == run(Tokenizer.Expand(Tokenizer.Tokenise(unit.template), 0, j.jid, j.input))
    requires expected == run(Tokenizer.Expand(Tokenizer.Tokenise(unit.template), 0, job.jid, job.input))
    ensures UnitOk(world, next) && !next.kill && next.workers != []
    ensures OnTheWay(next, was, job, run, expected)
    ensures Rank(next, was, job) < Rank(unit, was, job)
  {
    hide Sum, UnitOk, Tokenizer.Expand, Tokenizer.Tokenise;
    CommandPoolInvariant.WorkerKeepsUnit(world, unit, e, next);
    assert !unit.workers[0].Leaving? by { InLoop(world, unit); }
    assert (was.stack + [job])[..|was.stack|] == was.stack;
    assert next.workers == unit.workers[0 := next.workers[0]] == was.workers[0 := next.workers[0]];
  }

  lemma Collected(world: World, unit: Unit, was: Unit, job: Job, run: string -> RunResult, expected: RunResult)
    requires UnitOk(world, unit) && OnTheWay(unit, was, job, run, expected) && job.jid in unit.outputs
    ensures unit.outputs[job.jid] == expected && unit.stack == was.stack
    ensures unit.outputs - {job.jid} == AfterCurrent(was, run) && unit.workers == was.workers[0 := Worker.Testing]
    ensures UnitOk(world, unit.(outputs := unit.outputs - {job.jid}))
  {
    hide Sum, AfterCurrent;
  }
}
