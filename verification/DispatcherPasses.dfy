/** Passes of a remote slot's loop as runs of the dispatcher. */
module DispatcherPasses {
  import opened Wrappers
  import opened Dispatcher
  import opened Jobs
  import opened DispatcherLaws
  import opened DispatcherProgress
  import TemplateLaws
  import Tokenizer

  /** What `next_input` gives: a new input first, then the job that failed last. */
  function NextEntry(s: State): Option<Entry> {
    if s.fifo != [] then Some(Entry(s.fifo[0].jid, s.fifo[0].input, 0))
    else if s.retries != [] then Some(s.retries[|s.retries| - 1])
    else None
  }

  function AfterTake(s: State): State {
    if s.fifo != [] then s.(fifo := s.fifo[1..])
    else if s.retries != [] then s.(retries := s.retries[..|s.retries| - 1])
    else s
  }

  /** What is left of an exchange: a stored result, a job put back, or a job given up. */
  function AfterExchange(s: State, entry: Entry, reply: Option<(nat, Captured)>): State
    requires entry.jid < |s.failures|
  {
    match reply
    case Some((sid, captured)) => s.(outputs := s.outputs[entry.jid := Outcome(Relayed(captured))])
    case None =>
      var counted := s.(failures := s.failures[entry.jid := s.failures[entry.jid] + 1]);
      if entry.tries == 3 then counted.(failed := s.failed[entry.jid := entry.input])
      else counted.(retries := s.retries + [entry.(tries := entry.tries + 1)])
  }

  lemma TakeRun(cfg: Config, s: State, i: nat) returns (events: seq<Event>)
    requires i < |s.slots| == |cfg.kinds| && s.slots[i].Idle? && cfg.kinds[i].Remote? && !s.main.KillSet?
    ensures Run(cfg, s, events) ==
            if NextEntry(s).None? then Some(s)
            else Some(AfterTake(s).(slots := s.slots[i := Holding(NextEntry(s).value)]))
  {
    var ready := s.(slots := s.slots[i := Ready]);
    assert Step(cfg, s, TestKill(i)) == Some(ready);
    RunSingle(cfg, s, TestKill(i), ready);
    if s.fifo != [] {
      var t := AfterTake(s).(slots := s.slots[i := Holding(NextEntry(s).value)]);
      assert t.slots == ready.slots[i := t.slots[i]];
      RunAppend(cfg, s, [TestKill(i)], ready, PopInput(i), t);
      events := [TestKill(i)] + [PopInput(i)];
    } else {
      var empty := s.(slots := s.slots[i := QueueEmpty]);
      assert empty.slots == ready.slots[i := QueueEmpty];
      RunAppend(cfg, s, [TestKill(i)], ready, PopInput(i), empty);
      var t := if s.retries == [] then s
               else AfterTake(s).(slots := s.slots[i := Holding(NextEntry(s).value)]);
      assert t.slots == empty.slots[i := t.slots[i]];
      RunAppend(cfg, s, [TestKill(i)] + [PopInput(i)], empty, PopRetry(i), t);
      events := [TestKill(i)] + [PopInput(i)] + [PopRetry(i)];
    }
  }

  /** A pass of a remote slot's loop without interference, as steps of the dispatcher. */
  lemma PassRun(cfg: Config, s: State, i: nat, reply: Option<(nat, Captured)>) returns (events: seq<Event>)
    requires i < |s.slots| == |cfg.kinds| && s.slots[i].Idle? && cfg.kinds[i].Remote? && !s.main.KillSet?
    requires NextEntry(s).Some? ==> NextEntry(s).value.jid < |s.failures|
    requires NextEntry(s).Some? && reply.Some? ==>
               cfg.shell(Tokenizer.Expand(Tokenizer.Tokenise(cfg.template), reply.value.0,
                                          NextEntry(s).value.jid, NextEntry(s).value.input), reply.value.1)
    ensures Run(cfg, s, events) ==
            Some(if NextEntry(s).None? then s else AfterExchange(AfterTake(s), NextEntry(s).value, reply))
  {
    hide Run, Tokenizer.Expand, Tokenizer.Tokenise, Relayed;
    events := TakeRun(cfg, s, i);
    if NextEntry(s).Some? {
      var entry := NextEntry(s).value;
      var held := AfterTake(s).(slots := s.slots[i := Holding(entry)]);
      var t := AfterExchange(AfterTake(s), entry, reply);
      var e := match reply case Some((sid, captured)) => Complete(i, sid, captured) case None => ExchangeFails(i);
      assert held.slots[i := Idle] == s.slots;
      RunAppend(cfg, s, events, held, e, t);
      events := events + [e];
    }
  }

  lemma NextEntryInRange(cfg: Config, s: State)
    requires Inv(cfg, s)
    ensures NextEntry(s).Some? ==> NextEntry(s).value.jid < |s.failures|
    ensures |s.slots| == |cfg.kinds| && |s.failures| == |cfg.inputs|
  {
    hide Conserved, Allowed;
    if s.fifo != [] {
      assert Genuine(cfg, s, s.fifo[0].jid, s.fifo[0].input, 0);
    } else if s.retries != [] {
      var last := s.retries[|s.retries| - 1];
      assert Genuine(cfg, s, last.jid, last.input, last.tries);
    }
  }

  // ---------- Giving a job up ----------

  /** A job on the retry stack fails until it is given up. */
  lemma {:induction false} FailAgain(cfg: Config, s: State, i: nat) returns (events: seq<Event>, last: State)
    requires i < |s.slots| == |cfg.kinds| && s.slots[i].Idle? && cfg.kinds[i].Remote? && !s.main.KillSet?
    requires s.fifo == [] && |s.retries| == 1 && s.retries[0].jid < |s.failures| && s.retries[0].tries <= 3
    ensures Run(cfg, s, events) == Some(last) && s.retries[0].jid in last.failed
    decreases 3 - s.retries[0].tries
  {
    hide Run;
    var entry := s.retries[0];
    events := PassRun(cfg, s, i, None);
    last := AfterExchange(AfterTake(s), entry, None);
    if entry.tries < 3 {
      assert last.retries == [entry.(tries := entry.tries + 1)];
      var more, end := FailAgain(cfg, last, i);
      RunConcat(cfg, s, events, last, more);
      events, last := events + more, end;
    }
  }

  /** Any client with a remote slot and an input has a run that gives a job up, and with it the
      hope of leaving the loop. */
  lemma GiveUpIsPossible(cfg: Config)
    requires Remote in cfg.kinds && cfg.inputs != []
    ensures exists es, last :: Run(cfg, Init(cfg), es) == Some(last) && last.failed != map[]
  {
    hide Run;
    var i :| 0 <= i < |cfg.kinds| && cfg.kinds[i].Remote?;
    var s := Init(cfg);
    var queued := s.(fifo := s.fifo + [Job(0, cfg.inputs[0])], produced := 1);
    var idle := queued.(slots := s.slots[i := Idle]);
    assert Step(cfg, s, Produce) == Some(queued);
    assert Step(cfg, queued, Connect(i)) == Some(idle);
    RunSingle(cfg, s, Produce, queued);
    RunAppend(cfg, s, [Produce], queued, Connect(i), idle);
    var first := PassRun(cfg, idle, i, None);
    var failed := AfterExchange(AfterTake(idle), NextEntry(idle).value, None);
    assert failed.retries == [Entry(0, cfg.inputs[0], 1)];
    var more, last := FailAgain(cfg, failed, i);
    RunConcat(cfg, s, [Produce] + [Connect(i)], idle, first);
    RunConcat(cfg, s, [Produce] + [Connect(i)] + first, failed, more);
    assert Run(cfg, s, [Produce] + [Connect(i)] + first + more) == Some(last);
  }

  // ---------- One job at a time ----------

  /** One job is produced, taken by remote slot `i`, answered and printed. */
  lemma OneJob(cfg: Config, s: State, i: nat, sid: nat, captured: Captured) returns (events: seq<Event>)
    requires i < |s.slots| == |cfg.kinds| && s.slots[i].Idle? && cfg.kinds[i].Remote? && |s.failures| == |cfg.inputs|
    requires s.main.Testing? && s.producer.Producing? && s.produced == s.counter < |cfg.inputs|
    requires s.fifo == [] && s.outputs == map[] && Captures(cfg, s.counter, sid, captured)
    ensures Run(cfg, s, events) ==
            Some(s.(produced := s.produced + 1, counter := s.counter + 1, printed := s.printed + [Outcome(Relayed(captured))]))
  {
    hide Run, Relayed, Tokenizer.Expand, Tokenizer.Tokenise, Tokenizer.CommandLine;
    var k := s.counter;
    TemplateLaws.ExpandTokenised(cfg.template, sid, k, cfg.inputs[k]);
    var queued := s.(fifo := s.fifo + [Job(k, cfg.inputs[k])], produced := k + 1);
    RunSingle(cfg, s, Produce, queued);
    var pass := PassRun(cfg, queued, i, Some((sid, captured)));
    RunConcat(cfg, s, [Produce], queued, pass);
    var stored := s.(produced := k + 1, outputs := s.outputs[k := Outcome(Relayed(captured))]);
    assert AfterExchange(AfterTake(queued), NextEntry(queued).value, Some((sid, captured))) == stored;
    var waiting := stored.(main := Waiting);
    RunAppend(cfg, s, [Produce] + pass, stored, TestFinished, waiting);
    var printed := s.(produced := k + 1, counter := k + 1, printed := s.printed + [Outcome(Relayed(captured))]);
    assert stored.outputs - {k} == map[];
    assert Step(cfg, waiting, Collect) == Some(printed);
    RunAppend(cfg, s, [Produce] + pass + [TestFinished], waiting, Collect, printed);
    events := [Produce] + pass + [TestFinished] + [Collect];
  }

  /** A client with remote slot `i` connected that has printed its first jobs, and nothing else. */
  ghost predicate OneByOne(cfg: Config, s: State, i: nat) {
    && i < |s.slots| == |cfg.kinds| && s.slots[i].Idle? && cfg.kinds[i].Remote? && |s.failures| == |cfg.inputs|
    && s.main.Testing? && s.producer.Producing? && s.produced == s.counter == |s.printed| <= |cfg.inputs|
    && s.fifo == [] && s.outputs == map[]
  }

  lemma {:induction false} FirstJobs(cfg: Config, i: nat, n: nat) returns (events: seq<Event>, s: State)
    requires i < |cfg.kinds| && cfg.kinds[i].Remote? && n <= |cfg.inputs| && ShellTotal(cfg)
    ensures Run(cfg, Init(cfg), events) == Some(s) && OneByOne(cfg, s, i) && s.counter == n
    decreases n
  {
    hide Run, Relayed, ShellTotal, Tokenizer.CommandLine;
    if n == 0 {
      s := Init(cfg).(slots := Init(cfg).slots[i := Idle]);
      assert Step(cfg, Init(cfg), Connect(i)) == Some(s);
      RunSingle(cfg, Init(cfg), Connect(i), s);
      events := [Connect(i)];
    } else {
      var before;
      events, before := FirstJobs(cfg, i, n - 1);
      var captured := SomeCapture(cfg, n - 1);
      var more := OneJob(cfg, before, i, 0, captured);
      s := before.(produced := n, counter := n, printed := before.printed + [Outcome(Relayed(captured))]);
      RunConcat(cfg, Init(cfg), events, before, more);
      events := events + more;
    }
  }

  lemma SomeCapture(cfg: Config, k: nat) returns (captured: Captured)
    requires ShellTotal(cfg) && k < |cfg.inputs|
    ensures Captures(cfg, k, 0, captured)
  {
    hide Tokenizer.CommandLine;
    var line := Tokenizer.CommandLine(cfg.template, 0, k, cfg.inputs[k]);
    assert CanRun(cfg, line);
    captured :| cfg.shell(line, captured);
  }

  /** In all runs what is printed for each job is a capture of its own command line. */
  ghost predicate AlwaysPrintsCaptures(cfg: Config) {
    forall es, last | Run(cfg, Init(cfg), es) == Some(last) :: PrintsCaptures(cfg, last)
  }

  lemma KeptAreAlwaysPrinted(cfg: Config)
    requires WireKeepsCaptures(cfg)
    ensures AlwaysPrintsCaptures(cfg)
  {
    hide PrintsCaptures, WireKeepsCaptures;
    forall es, last | Run(cfg, Init(cfg), es) == Some(last)
      ensures PrintsCaptures(cfg, last)
    {
      KeptArePrinted(cfg, es, last);
    }
  }

  /** What is printed for each job always is a capture of its own command line, with its own input,
      exactly when the wire keeps captures. */
  lemma PrintedAreCapturesIff(cfg: Config)
    requires ShellTotal(cfg)
    ensures AlwaysPrintsCaptures(cfg) <==> WireKeepsCaptures(cfg)
  {
    hide AlwaysPrintsCaptures, WireKeepsCaptures, ShellTotal;
    if WireKeepsCaptures(cfg) {
      KeptAreAlwaysPrinted(cfg);
    }
    if AlwaysPrintsCaptures(cfg) {
      PrintingNeedsTheWire(cfg);
    }
  }

  lemma PrintingNeedsTheWire(cfg: Config)
    requires AlwaysPrintsCaptures(cfg)
    requires ShellTotal(cfg)
    ensures WireKeepsCaptures(cfg)
  {
    hide AlwaysPrintsCaptures, Captures, IsCapture, Relayed, ShellTotal;
    if Remote in cfg.kinds {
      var i :| 0 <= i < |cfg.kinds| && cfg.kinds[i] == Remote;
      forall k, sid: nat, captured | Captures(cfg, k, sid, captured)
        ensures IsCapture(cfg, k, Relayed(captured))
      {
        PrintedIsCapture(cfg, i, k, sid, captured);
      }
    }
  }

  lemma PrintedIsCapture(cfg: Config, i: nat, k: nat, sid: nat, captured: Captured)
    requires AlwaysPrintsCaptures(cfg)
    requires i < |cfg.kinds| && cfg.kinds[i].Remote? && ShellTotal(cfg) && Captures(cfg, k, sid, captured)
    ensures IsCapture(cfg, k, Relayed(captured))
  {
    hide Run, IsCapture, Relayed, ShellTotal, Tokenizer.CommandLine;
    var events, s := FirstJobs(cfg, i, k);
    var more := OneJob(cfg, s, i, sid, captured);
    var last := s.(produced := k + 1, counter := k + 1, printed := s.printed + [Outcome(Relayed(captured))]);
    RunConcat(cfg, Init(cfg), events, s, more);
    assert PrintsCaptures(cfg, last);
    assert last.printed[k] == Outcome(Relayed(captured));
  }
}
