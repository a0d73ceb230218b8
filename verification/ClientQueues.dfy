/** The client's shared queues and the code that works on them: sources, slots and the main
    loop, each shown to be a run of the dispatcher's steps when nothing interferes. */
module ClientQueues {
  import opened Wrappers
  import opened Dispatcher
  import opened DispatcherPasses
  import opened Jobs
  import opened Sources
  import DispatcherProgress
  import Tokenizer

  // ---------- The queues ----------

  class Inputs {
    var inputs: seq<Job>

    constructor ()
      ensures inputs == []
    {
      inputs := [];
    }

    method GetJob() returns (job: Option<Job>)
      modifies this
      ensures if old(inputs) == [] then job == None && inputs == []
              else job == Some(old(inputs)[0]) && inputs == old(inputs)[1..]
    {
      if inputs == [] {
        return None;
      }
      job := Some(inputs[0]);
      inputs := inputs[1..];
    }

    method InsertJob(id: nat, job: string)
      modifies this
      ensures inputs == old(inputs) + [Job(id, job)]
    {
      inputs := inputs + [Job(id, job)];
    }
  }

  class Outputs {
    var outputs: map<nat, Output>

    constructor ()
      ensures outputs == map[]
    {
      outputs := map[];
    }

    method PushExternal(id: nat, status: nat, out: string, err: string)
      modifies this
      ensures outputs == old(outputs)[id := Outcome(Captured(status, out, err))]
    {
      outputs := outputs[id := Outcome(Captured(status, out, err))];
    }

    method Insert(id: nat, result: Option<Captured>)
      modifies this
      ensures outputs == old(outputs)[id := match result case Some(c) => Outcome(c) case None => Failed]
    {
      var output := match result case Some(c) => Outcome(c) case None => Failed;
      outputs := outputs[id := output];
    }

    method Remove(id: nat) returns (output: Option<Output>)
      modifies this
      ensures output == if id in old(outputs) then Some(old(outputs)[id]) else None
      ensures outputs == old(outputs) - {id}
    {
      output := if id in outputs then Some(outputs[id]) else None;
      outputs := outputs - {id};
    }

    /** Polls until the output is there; `others(k)` is what other threads store during the k-th
        sleep. The precondition only says that they store it in the end. */
    method Get(id: nat, others: nat -> map<nat, Output>) returns (output: Output, ghost polls: nat)
      requires exists n: nat :: id in AfterSleeps(outputs, others, n)
      modifies this
      ensures id in AfterSleeps(old(outputs), others, polls)
      ensures forall k: nat | k < polls :: id !in AfterSleeps(old(outputs), others, k)
      ensures output == AfterSleeps(old(outputs), others, polls)[id]
      ensures outputs == AfterSleeps(old(outputs), others, polls) - {id}
    {
      hide AfterSleeps;
      ghost var last: nat :| id in AfterSleeps(outputs, others, last);
      NoSleep(outputs, others);
      var sleeps := 0;
      while true
        invariant outputs == AfterSleeps(old(outputs), others, sleeps)
        invariant forall k: nat | k < sleeps :: id !in AfterSleeps(old(outputs), others, k)
        invariant sleeps <= last
        decreases last - sleeps
      {
        var element := Remove(id);
        if element.Some? {
          return element.value, sleeps;
        }
        assert outputs == AfterSleeps(old(outputs), others, sleeps) - {id} == AfterSleeps(old(outputs), others, sleeps);
        OneMoreSleep(old(outputs), others, sleeps);
        outputs := outputs + others(sleeps);
        sleeps := sleeps + 1;
      }
    }
  }

  /** The map after some sleeps in which other threads stored results. */
  function AfterSleeps(outputs: map<nat, Output>, others: nat -> map<nat, Output>, n: nat): map<nat, Output> {
    if n == 0 then outputs else AfterSleeps(outputs, others, n - 1) + others(n - 1)
  }

  lemma NoSleep(outputs: map<nat, Output>, others: nat -> map<nat, Output>)
    ensures AfterSleeps(outputs, others, 0) == outputs
  {
  }

  lemma OneMoreSleep(outputs: map<nat, Output>, others: nat -> map<nat, Output>, n: nat)
    ensures AfterSleeps(outputs, others, n + 1) == AfterSleeps(outputs, others, n) + others(n)
  {
  }

  class Retries {
    var errors: seq<Entry>

    constructor ()
      ensures errors == []
    {
      errors := [];
    }

    method PopBack() returns (entry: Option<Entry>)
      modifies this
      ensures if old(errors) == [] then entry == None && errors == []
              else entry == Some(old(errors)[|old(errors)| - 1]) && errors == old(errors)[..|old(errors)| - 1]
    {
      if errors == [] {
        return None;
      }
      entry := Some(errors[|errors| - 1]);
      errors := errors[..|errors| - 1];
    }

    method PushBack(entry: Entry)
      modifies this
      ensures errors == old(errors) + [entry]
    {
      errors := errors + [entry];
    }
  }

  class GivenUp {
    var failed: map<nat, string>

    constructor ()
      ensures failed == map[]
    {
      failed := map[];
    }

    method Insert(jid: nat, input: string)
      modifies this
      ensures failed == old(failed)[jid := input]
    {
      failed := failed[jid := input];
    }
  }

  // ---------- Sources ----------

  method Read(lines: seq<Option<string>>, inputs: Inputs, ninputs: nat) returns (n: nat)
    modifies inputs
    ensures n == ninputs + |Accepted(lines)|
    ensures inputs.inputs == old(inputs.inputs) + Numbered(Accepted(lines), ninputs)
    ensures QueuedFrom(lines, Numbered(Accepted(lines), ninputs), ninputs)
  {
    hide QueuedFrom, Trim, IsInput;
    n := ninputs;
    ghost var done: seq<string> := [];
    assert Numbered(done, ninputs) == [];
    for i := 0 to |lines|
      invariant done + Accepted(lines[i..]) == Accepted(lines)
      invariant n == ninputs + |done|
      invariant inputs.inputs == old(inputs.inputs) + Numbered(done, ninputs)
    {
      AcceptedStep(lines, i, done);
      match lines[i] {
        case Some(line) =>
          var input := Trim(line);
          if IsInput(input) {
            inputs.InsertJob(n, input);
            assert Numbered(done + [input], ninputs) == Numbered(done, ninputs) + [Job(n, input)];
            done := done + [input];
            n := n + 1;
          }
        case None =>
          break;
      }
    }
    AcceptedIsQueued(lines, ninputs);
  }

  /** Job numbers go on from one file to the next. */
  method ReadFiles(files: seq<Option<seq<Option<string>>>>, inputs: Inputs) returns (ninputs: nat)
    modifies inputs
    ensures ninputs == |AcceptedFiles(files)|
    ensures inputs.inputs == old(inputs.inputs) + Numbered(AcceptedFiles(files), 0)
  {
    hide QueuedFrom;
    ninputs := 0;
    ghost var done: seq<string> := [];
    assert Numbered(done, 0) == [];
    for i := 0 to |files|
      invariant done + AcceptedFiles(files[i..]) == AcceptedFiles(files)
      invariant ninputs == |done|
      invariant inputs.inputs == old(inputs.inputs) + Numbered(done, 0)
    {
      assert files[i..][1..] == files[i + 1..];
      if files[i].Some? {
        ghost var more := Accepted(files[i].value);
        ninputs := Read(files[i].value, inputs, ninputs);
        NumberedConcat(done, more);
        done := done + more;
      }
    }
  }

  method EnqueueStrings(args: seq<string>, inputs: Inputs) returns (ninputs: nat)
    modifies inputs
    ensures ninputs == |args|
    ensures inputs.inputs == old(inputs.inputs) + Numbered(args, 0)
  {
    ninputs := 0;
    assert Numbered([], 0) == [];
    for i := 0 to |args|
      invariant ninputs == i
      invariant inputs.inputs == old(inputs.inputs) + Numbered(args[..i], 0)
    {
      inputs.InsertJob(ninputs, args[i]);
      assert Numbered(args[..i + 1], 0) == Numbered(args[..i], 0) + [Job(i, args[i])];
      ninputs := ninputs + 1;
    }
    assert args[..|args|] == args;
  }

  // ---------- The producer ----------

  lemma {:induction false} ProduceRun(cfg: Config, s: State, n: nat) returns (events: seq<Event>)
    requires s.producer.Producing? && s.produced + n <= |cfg.inputs|
    ensures Run(cfg, s, events) ==
            Some(s.(fifo := s.fifo + Numbered(cfg.inputs[s.produced..s.produced + n], s.produced), produced := s.produced + n))
    decreases n
  {
    hide Run;
    if n == 0 {
      events := [];
      DispatcherProgress.NoSteps(cfg, s);
      assert s.fifo + Numbered(cfg.inputs[s.produced..s.produced], s.produced) == s.fifo;
    } else {
      var before := ProduceRun(cfg, s, n - 1);
      var k := s.produced + n - 1;
      var middle := s.(fifo := s.fifo + Numbered(cfg.inputs[s.produced..k], s.produced), produced := k);
      var last := s.(fifo := s.fifo + Numbered(cfg.inputs[s.produced..k + 1], s.produced), produced := k + 1);
      assert last.fifo == middle.fifo + [Job(k, cfg.inputs[k])];
      DispatcherProgress.RunAppend(cfg, s, before, middle, Produce, last);
      events := before + [Produce];
    }
  }

  /** The producer thread: it queues its arguments, stores their number and then announces the
      end. Without interference that is a run of the dispatcher. */
  method ProduceStrings(args: seq<string>, inputs: Inputs, ghost cfg: Config)
    returns (total: nat, finished: bool, ghost events: seq<Event>, ghost t: State)
    requires cfg.inputs == args && inputs.inputs == []
    modifies inputs
    ensures Run(cfg, Init(cfg), events) == Some(t)
    ensures t.fifo == inputs.inputs && t.total == total && t.producer.Finished? && finished
  {
    hide Run;
    var ninputs := EnqueueStrings(args, inputs);
    total := ninputs;
    finished := true;
    ghost var s := Init(cfg);
    events := ProduceRun(cfg, s, |args|);
    assert args[0..|args|] == args;
    ghost var queued := s.(fifo := inputs.inputs, produced := |args|);
    assert s.fifo + Numbered(args, 0) == inputs.inputs;
    ghost var stored := queued.(total := total, producer := TotalStored);
    DispatcherProgress.RunAppend(cfg, s, events, queued, StoreTotal, stored);
    t := stored.(producer := Finished);
    DispatcherProgress.RunAppend(cfg, s, events + [StoreTotal], stored, StoreFinished, t);
    events := events + [StoreTotal] + [StoreFinished];
  }

  // ---------- Slots ----------

  /** What is left of a local run: the captured result, or the note that nothing could be run. */
  function AfterLocalRun(s: State, entry: Entry, result: Option<Captured>): State {
    s.(outputs := s.outputs[entry.jid := match result case Some(c) => Outcome(c) case None => Failed])
  }

  lemma LocalPassRun(cfg: Config, s: State, i: nat, result: Option<Captured>) returns (events: seq<Event>)
    requires i < |s.slots| == |cfg.kinds| && s.slots[i].Idle? && cfg.kinds[i].Local? && !s.main.KillSet?
    requires s.fifo != [] && result.Some? ==>
               cfg.shell(Tokenizer.Expand(Tokenizer.Tokenise(cfg.template), i, s.fifo[0].jid, s.fifo[0].input), result.value)
    ensures Run(cfg, s, events) ==
            Some(if s.fifo == [] then s else AfterLocalRun(AfterTake(s), NextEntry(s).value, result))
  {
    hide Run, Tokenizer.Expand, Tokenizer.Tokenise, Relayed;
    var ready := s.(slots := s.slots[i := Ready]);
    DispatcherProgress.RunSingle(cfg, s, TestKill(i), ready);
    events := [TestKill(i)] + [PopInput(i)];
    if s.fifo == [] {
      assert ready.slots[i := Idle] == s.slots;
      DispatcherProgress.RunAppend(cfg, s, [TestKill(i)], ready, PopInput(i), s);
    } else {
      var entry := NextEntry(s).value;
      var held := AfterTake(s).(slots := s.slots[i := Holding(entry)]);
      assert ready.slots[i := Holding(entry)] == held.slots;
      DispatcherProgress.RunAppend(cfg, s, [TestKill(i)], ready, PopInput(i), held);
      var t := AfterLocalRun(AfterTake(s), entry, result);
      var e := match result case Some(captured) => Complete(i, i, captured) case None => SpawnFails(i);
      assert held.slots[i := Idle] == s.slots;
      DispatcherProgress.RunAppend(cfg, s, events, held, e, t);
      events := events + [e];
    }
  }

  /** One pass of a local slot's loop. `run` is what running a command line gives, if it can be
      spawned. */
  method LocalPass(sid: nat, command: seq<Tokenizer.Token>, inputs: Inputs, outputs: Outputs,
                   run: string -> Option<Captured>, ghost cfg: Config, ghost s: State)
    returns (ghost events: seq<Event>, ghost t: State)
    requires s.fifo == inputs.inputs && s.outputs == outputs.outputs && command == Tokenizer.Tokenise(cfg.template)
    requires sid < |s.slots| == |cfg.kinds| && s.slots[sid].Idle? && cfg.kinds[sid].Local? && !s.main.KillSet?
    requires forall line | run(line).Some? :: cfg.shell(line, run(line).value)
    modifies inputs, outputs
    ensures Run(cfg, s, events) == Some(t) && t.fifo == inputs.inputs && t.outputs == outputs.outputs
    ensures t == if s.fifo == [] then s
                 else AfterLocalRun(AfterTake(s), NextEntry(s).value,
                                    run(Tokenizer.Expand(command, sid, s.fifo[0].jid, s.fifo[0].input)))
  {
    hide Run, Tokenizer.Expand, Tokenizer.Tokenise;
    var next := inputs.GetJob();
    t := s;
    ghost var result: Option<Captured> := None;
    if next.Some? {
      var buffer := FillBuffer(command, sid, next.value.jid, next.value.input);
      var captured := run(buffer);
      outputs.Insert(next.value.jid, captured);
      result := captured;
      t := AfterLocalRun(AfterTake(s), NextEntry(s).value, captured);
    }
    events := LocalPassRun(cfg, s, sid, result);
  }

  // ---------- The main loop ----------

  /** One turn of the main loop when the inputs have ended and the next result is there. */
  lemma PrintTurn(cfg: Config, s: State)
    requires s.main.Testing? && s.producer.Finished? && s.counter != s.total && s.counter in s.outputs
    ensures Run(cfg, s, [TestFinished] + [TestTotal] + [Collect]) ==
            Some(s.(printed := s.printed + [s.outputs[s.counter]], outputs := s.outputs - {s.counter}, counter := s.counter + 1))
  {
    hide Run;
    var comparing, waiting := s.(main := Comparing), s.(main := Waiting);
    var next := s.(printed := s.printed + [s.outputs[s.counter]], outputs := s.outputs - {s.counter}, counter := s.counter + 1);
    DispatcherProgress.RunSingle(cfg, s, TestFinished, comparing);
    DispatcherProgress.RunAppend(cfg, s, [TestFinished], comparing, TestTotal, waiting);
    DispatcherProgress.RunAppend(cfg, s, [TestFinished] + [TestTotal], waiting, Collect, next);
  }

  lemma LastTurn(cfg: Config, s: State)
    requires s.main.Testing? && s.producer.Finished? && s.counter == s.total
    ensures Run(cfg, s, [TestFinished] + [TestTotal]) == Some(s.(main := Exited))
  {
    hide Run;
    DispatcherProgress.RunSingle(cfg, s, TestFinished, s.(main := Comparing));
    DispatcherProgress.RunAppend(cfg, s, [TestFinished], s.(main := Comparing), TestTotal, s.(main := Exited));
  }

  /** The main loop when the inputs have ended and every result is there: a run of the dispatcher
      that prints them all in order, takes them out of the map and leaves the loop. */
  method PrintAll(outputs: Outputs, total: nat, ghost cfg: Config, ghost s: State)
    returns (printed: seq<Output>, ghost events: seq<Event>, ghost t: State)
    requires forall k | 0 <= k < total :: k in outputs.outputs
    requires s.outputs == outputs.outputs && s.total == total && s.counter == 0 && s.printed == []
    requires s.main.Testing? && s.producer.Finished?
    modifies outputs
    ensures |printed| == total
    ensures forall k | 0 <= k < total :: printed[k] == old(outputs.outputs)[k]
    ensures forall k :: k in outputs.outputs <==> k in old(outputs.outputs) && total <= k
    ensures Run(cfg, s, events) == Some(t) && t.main.Exited? && t.printed == printed && t.outputs == outputs.outputs
  {
    hide Run;
    printed := [];
    var counter := 0;
    events, t := [], s;
    assert Run(cfg, s, []) == Some(s) by { DispatcherProgress.NoSteps(cfg, s); }
    while counter != total
      invariant 0 <= counter == |printed| <= total
      invariant forall k | 0 <= k < counter :: printed[k] == old(outputs.outputs)[k]
      invariant forall k :: k in outputs.outputs <==> k in old(outputs.outputs) && counter <= k
      invariant forall k | k in outputs.outputs :: outputs.outputs[k] == old(outputs.outputs)[k]
      invariant Run(cfg, s, events) == Some(t)
      invariant t == s.(printed := printed, outputs := outputs.outputs, counter := counter)
      decreases total - counter
    {
      PrintTurn(cfg, t);
      DispatcherProgress.RunConcat(cfg, s, events, t, [TestFinished] + [TestTotal] + [Collect]);
      assert counter in AfterSleeps(outputs.outputs, _ => map[], 0);
      var output, polls := outputs.Get(counter, _ => map[]);
      printed := printed + [output];
      counter := counter + 1;
      events := events + ([TestFinished] + [TestTotal] + [Collect]);
      t := s.(printed := printed, outputs := outputs.outputs, counter := counter);
    }
    LastTurn(cfg, t);
    DispatcherProgress.RunConcat(cfg, s, events, t, [TestFinished] + [TestTotal]);
    events := events + ([TestFinished] + [TestTotal]);
    t := t.(main := Exited);
  }
}
