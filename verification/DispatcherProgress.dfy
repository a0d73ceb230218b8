/** When the client can finish, and what stops it. */
module DispatcherProgress {
  import opened Wrappers
  import opened Sums
  import opened Dispatcher
  import opened Jobs
  import opened DispatcherInvariant
  import opened DispatcherLaws
  import Tokenizer

  // ---------- What stops the client for good ----------

  predicate Over(s: State) {
    s.main.Exited? || s.main.KillSet?
  }

  /** The main thread waits for a job that was never produced. */
  predicate WaitsPastTheEnd(cfg: Config, s: State) {
    s.main.Waiting? && s.counter == |cfg.inputs|
  }

  lemma StepKeepsHanging(cfg: Config, s: State, e: Event, next: State)
    requires Inv(cfg, s) && Step(cfg, s, e) == Some(next) && WaitsPastTheEnd(cfg, s)
    ensures WaitsPastTheEnd(cfg, next)
  {
    hide Sum, Allowed, Places, Genuine, Ran, Relayed;
    StillAround(s);
  }

  /** Once a job is given up, or the main thread waits past the last job, no run gets it out of its loop. */
  lemma {:induction false} NeverExits(cfg: Config, s: State, es: seq<Event>, last: State)
    requires Inv(cfg, s) && Run(cfg, s, es) == Some(last)
    requires s.failed != map[] || WaitsPastTheEnd(cfg, s)
    ensures !Over(last)
    decreases |es|
  {
    hide Step, Sum, Places, Contents;
    if es == [] {
      StillAround(s);
      if s.failed != map[] {
        var k :| k in s.failed;
      }
    } else {
      var next := Step(cfg, s, es[0]).value;
      StepKeepsInv(cfg, s, es[0], next);
      if s.failed != map[] {
        var k :| k in s.failed;
        StepOverwritesNothing(cfg, s, es[0], next);
        assert k in next.failed;
      } else {
        StepKeepsHanging(cfg, s, es[0], next);
      }
      NeverExits(cfg, next, es[1..], last);
    }
  }

  // ---------- Towards the next piece of work ----------

  /** A step that moves no job. */
  predicate IsHousekeeping(s: State, e: Event) {
    (e.Connect? || e.TestKill? || e.PopInput? || e.PopRetry? || e.TestFinished? || e.TestTotal?) && !IsWork(s, e)
  }

  predicate HousekeepingRun(cfg: Config, s: State, es: seq<Event>)
    decreases |es|
  {
    es == [] || (IsHousekeeping(s, es[0]) &&
                 match Step(cfg, s, es[0])
                 case None => false
                 case Some(next) => HousekeepingRun(cfg, next, es[1..]))
  }

  /** How far a slot is from popping the input queue, or the retry stack once that is empty. */
  function Distance(s: State, pc: Pc): nat {
    match pc
    case Connecting => 5
    case Idle => 4
    case Ready => 3
    case QueueEmpty => if s.fifo == [] then 2 else 5
    case _ => 0
  }

  /** The step a slot without a job takes next. */
  function NextMove(i: nat, pc: Pc): Event {
    match pc
    case Connecting => Connect(i)
    case Idle => TestKill(i)
    case Ready => PopInput(i)
    case _ => PopRetry(i)
  }

  lemma MoveSlot(cfg: Config, s: State, i: nat)
    requires Inv(cfg, s) && i < |s.slots| && !s.slots[i].Holding? && !Over(s)
    requires s.fifo != [] || (s.retries != [] && cfg.kinds[i].Remote?)
    ensures var e := NextMove(i, s.slots[i]);
            && Step(cfg, s, e).Some?
            && (!IsWork(s, e) ==>
                  var next := Step(cfg, s, e).value;
                  && IsHousekeeping(s, e)
                  && next == s.(slots := s.slots[i := next.slots[i]])
                  && !next.slots[i].Holding?
                  && Distance(next, next.slots[i]) < Distance(s, s.slots[i]))
            && (IsWork(s, e) ==> e.PopInput? || e.PopRetry?)
  {
    hide Sum, Allowed, Places, Genuine, Ran, Relayed;
    assert SlotOk(cfg, s, i);
  }

  /** A slot that can take a job gets to taking one in a few steps of its own. */
  lemma {:induction false} SlotReachesWork(cfg: Config, s: State, i: nat) returns (es: seq<Event>, e: Event, t: State)
    requires Inv(cfg, s) && i < |s.slots| && !s.slots[i].Holding? && !Over(s)
    requires s.fifo != [] || (s.retries != [] && cfg.kinds[i].Remote?)
    ensures HousekeepingRun(cfg, s, es) && Run(cfg, s, es) == Some(t)
    ensures IsWork(t, e) && Step(cfg, t, e).Some? && (e.PopInput? || e.PopRetry?)
    decreases Distance(s, s.slots[i])
  {
    hide Step, IsWork, IsHousekeeping, Inv;
    MoveSlot(cfg, s, i);
    e := NextMove(i, s.slots[i]);
    if IsWork(s, e) {
      es, t := [], s;
    } else {
      var first := e;
      var next := Step(cfg, s, first).value;
      StepKeepsInv(cfg, s, first, next);
      es, e, t := SlotReachesWork(cfg, next, i);
      assert ([first] + es)[1..] == es;
      es := [first] + es;
    }
  }

  /** A job in a slot's hands can always end there, if need be by failing. */
  lemma HeldCanEnd(cfg: Config, s: State, i: nat) returns (e: Event)
    requires Inv(cfg, s) && i < |s.slots| && s.slots[i].Holding?
    ensures IsWork(s, e) && Step(cfg, s, e).Some?
  {
    hide Sum, Allowed, Places, Ran, Relayed;
    assert SlotOk(cfg, s, i);
    e := if cfg.kinds[i].Local? then SpawnFails(i) else ExchangeFails(i);
  }

  /** Where a job that is neither printed nor given up nor stored has to be. */
  lemma JobIsSomewhere(s: State, k: nat) returns (i: nat)
    requires Conserved(s) && s.counter <= k < s.produced && k !in s.failed && k !in s.outputs
    ensures s.fifo != [] || s.retries != [] || (i < |s.slots| && s.slots[i].Holding?)
  {
    hide Sum;
    assert Places(s, k) == 1;
    SumPositive(s.fifo, IsJob(k));
    SumPositive(s.retries, IsEntry(k));
    SumPositive(s.slots, Holds(k));
    i := 0;
    if Sum(s.slots, Holds(k)) > 0 {
      i :| 0 <= i < |s.slots| && Holds(k)(s.slots[i]) > 0;
    }
  }

  lemma MainReachesCollect(cfg: Config, s: State) returns (es: seq<Event>, t: State)
    requires Inv(cfg, s) && s.counter in s.outputs
    ensures HousekeepingRun(cfg, s, es) && Run(cfg, s, es) == Some(t)
    ensures IsWork(t, Collect) && Step(cfg, t, Collect).Some?
  {
    hide Sum, Allowed, Places, Genuine;
    StillAround(s);
    match s.main
    case Testing =>
      var tested := s.(main := if s.producer.Finished? then Comparing else Waiting);
      t := s.(main := Waiting);
      assert [TestFinished][1..] == [] && [TestTotal][1..] == [] && [TestFinished, TestTotal][1..] == [TestTotal];
      assert Run(cfg, t, []) == Some(t) && HousekeepingRun(cfg, t, []);
      if s.producer.Finished? {
        es := [TestFinished, TestTotal];
        assert Run(cfg, tested, [TestTotal]) == Some(t) && HousekeepingRun(cfg, tested, [TestTotal]);
      } else {
        es := [TestFinished];
      }
    case Comparing =>
      t := s.(main := Waiting);
      es := [TestTotal];
      assert [TestTotal][1..] == [];
      assert Run(cfg, t, []) == Some(t);
      assert HousekeepingRun(cfg, t, []);
    case _ =>
      es, t := [], s;
  }

  /** With every input queued and a slot of some kind, either a step of work is a few housekeeping
      steps away, or the main thread has come to the least job given up or to the end. */
  lemma WorkOrEnd(cfg: Config, s: State) returns (es: seq<Event>, e: Event, t: State)
    requires Inv(cfg, s) && !s.producer.Producing? && cfg.kinds != [] && !Over(s)
    ensures if s.counter in s.failed then forall k | k in s.failed :: s.counter <= k
            else if s.counter == |cfg.inputs| then s.failed == map[]
            else HousekeepingRun(cfg, s, es) && Run(cfg, s, es) == Some(t) && IsWork(t, e) && Step(cfg, t, e).Some?
  {
    hide Sum, Allowed, Places, Genuine, Step, IsWork, HousekeepingRun, Run;
    StillAround(s);
    es, e, t := [], Collect, s;
    if s.counter in s.failed {
    } else if s.counter == |cfg.inputs| {
      assert s.failed.Keys == {};
    } else if s.counter in s.outputs {
      es, t := MainReachesCollect(cfg, s);
    } else {
      var i := JobIsSomewhere(s, s.counter);
      if j :| 0 <= j < |s.slots| && s.slots[j].Holding? {
        e := HeldCanEnd(cfg, s, j);
        NoSteps(cfg, s);
      } else if s.fifo != [] {
        es, e, t := SlotReachesWork(cfg, s, 0);
      } else {
        var r :| 0 <= r < |cfg.kinds| && cfg.kinds[r].Remote?;
        es, e, t := SlotReachesWork(cfg, s, r);
      }
    }
  }

  lemma NoSteps(cfg: Config, s: State)
    ensures HousekeepingRun(cfg, s, []) && Run(cfg, s, []) == Some(s)
  {
  }

  /** No step of work can be reached by housekeeping alone. */
  ghost predicate Stuck(cfg: Config, s: State) {
    forall es, t, e ::
      HousekeepingRun(cfg, s, es) && Run(cfg, s, es) == Some(t) && IsWork(t, e) ==> Step(cfg, t, e).None?
  }

  /** A client is stuck only in front of the least job given up, or at the end of its inputs. */
  lemma StuckStates(cfg: Config, events: seq<Event>, s: State)
    requires Run(cfg, Init(cfg), events) == Some(s)
    requires !s.producer.Producing? && cfg.kinds != [] && !Over(s) && Stuck(cfg, s)
    ensures if s.failed == map[] then s.counter == |cfg.inputs|
            else s.counter in s.failed && forall k | k in s.failed :: s.counter <= k
  {
    hide Step, IsWork, HousekeepingRun, Inv;
    InitInv(cfg);
    RunKeepsInv(cfg, Init(cfg), events, s);
    var es, e, t := WorkOrEnd(cfg, s);
  }

  // ---------- Finishing ----------

  lemma {:induction false} RunConcat(cfg: Config, s: State, a: seq<Event>, t: State, b: seq<Event>)
    requires Run(cfg, s, a) == Some(t)
    ensures Run(cfg, s, a + b) == Run(cfg, t, b)
    decreases |a|
  {
    hide Step;
    if a == [] {
      assert a + b == b;
    } else {
      assert (a + b)[1..] == a[1..] + b;
      RunConcat(cfg, Step(cfg, s, a[0]).value, a[1..], t, b);
    }
  }

  lemma RunAppend(cfg: Config, s: State, a: seq<Event>, t: State, e: Event, next: State)
    requires Run(cfg, s, a) == Some(t) && Step(cfg, t, e) == Some(next)
    ensures Run(cfg, s, a + [e]) == Some(next)
  {
    hide Step;
    RunConcat(cfg, s, a, t, [e]);
    assert [e][1..] == [];
    assert Run(cfg, next, []) == Some(next);
  }

  /** Nothing has been given up and the main thread can still get out. */
  predicate Hopeful(cfg: Config, s: State) {
    s.failed == map[] && !WaitsPastTheEnd(cfg, s)
  }

  lemma StepStaysHopeful(cfg: Config, s: State, e: Event, next: State)
    requires Inv(cfg, s) && s.producer.Finished? && Hopeful(cfg, s)
    requires Step(cfg, s, e) == Some(next) && !e.ExchangeFails?
    ensures next.producer.Finished? && Hopeful(cfg, next)
  {
    hide Sum, Allowed, Places, Genuine, Ran, Relayed;
    StillAround(s);
  }

  lemma {:induction false} HousekeepingStaysHopeful(cfg: Config, s: State, es: seq<Event>, t: State)
    requires Inv(cfg, s) && s.producer.Finished? && Hopeful(cfg, s)
    requires HousekeepingRun(cfg, s, es) && Run(cfg, s, es) == Some(t)
    ensures Inv(cfg, t) && t.producer.Finished? && Hopeful(cfg, t) && Work(t) == Work(s)
    decreases |es|
  {
    hide Step, Inv, Hopeful, Work, IsWork;
    if es != [] {
      var next := Step(cfg, s, es[0]).value;
      StepKeepsInv(cfg, s, es[0], next);
      StepStaysHopeful(cfg, s, es[0], next);
      StepWork(cfg, s, es[0], next);
      HousekeepingStaysHopeful(cfg, next, es[1..], t);
    }
  }

  ghost predicate CanRun(cfg: Config, line: string) {
    exists captured :: cfg.shell(line, captured)
  }

  /** Every command line can be run to some end. */
  ghost predicate ShellTotal(cfg: Config) {
    forall line :: CanRun(cfg, line)
  }

  lemma HeldCanComplete(cfg: Config, s: State, i: nat) returns (e: Event)
    requires Inv(cfg, s) && ShellTotal(cfg) && i < |s.slots| && s.slots[i].Holding?
    ensures IsWork(s, e) && Step(cfg, s, e).Some? && !e.ExchangeFails?
  {
    hide Sum, Allowed, Places, Relayed;
    var entry := s.slots[i].entry;
    var line := Tokenizer.Expand(Tokenizer.Tokenise(cfg.template), i, entry.jid, entry.input);
    assert CanRun(cfg, line);
    var captured :| cfg.shell(line, captured);
    e := Complete(i, i, captured);
  }

  /** The next piece of work that gives no job up. */
  lemma GoodWork(cfg: Config, s: State) returns (es: seq<Event>, e: Event, t: State)
    requires Inv(cfg, s) && !s.producer.Producing? && s.failed == map[] && ShellTotal(cfg)
    requires cfg.kinds != [] && !Over(s) && s.counter < |cfg.inputs|
    ensures HousekeepingRun(cfg, s, es) && Run(cfg, s, es) == Some(t)
    ensures IsWork(t, e) && Step(cfg, t, e).Some? && !e.ExchangeFails?
  {
    hide Sum, Allowed, Places, Genuine, Step, IsWork, HousekeepingRun, Run, ShellTotal;
    StillAround(s);
    es, e, t := [], Collect, s;
    if s.counter in s.outputs {
      es, t := MainReachesCollect(cfg, s);
    } else {
      var i := JobIsSomewhere(s, s.counter);
      if j :| 0 <= j < |s.slots| && s.slots[j].Holding? {
        e := HeldCanComplete(cfg, s, j);
        NoSteps(cfg, s);
      } else if s.fifo != [] {
        es, e, t := SlotReachesWork(cfg, s, 0);
      } else {
        var r :| 0 <= r < |cfg.kinds| && cfg.kinds[r].Remote?;
        es, e, t := SlotReachesWork(cfg, s, r);
      }
    }
  }

  lemma LeaveLoop(cfg: Config, s: State) returns (es: seq<Event>, last: State)
    requires Inv(cfg, s) && s.producer.Finished? && Hopeful(cfg, s) && s.counter == |cfg.inputs|
    ensures Run(cfg, s, es) == Some(last) && Over(last)
  {
    hide Sum, Allowed, Places, Genuine;
    var exited := s.(main := Exited);
    assert Run(cfg, exited, []) == Some(exited);
    assert [TestTotal][1..] == [] && [TestFinished, TestTotal][1..] == [TestTotal];
    match s.main
    case Testing =>
      es, last := [TestFinished, TestTotal], exited;
      assert Run(cfg, s.(main := Comparing), [TestTotal]) == Some(exited);
    case Comparing =>
      es, last := [TestTotal], exited;
    case _ =>
      es, last := [], s;
  }

  lemma {:induction false} FinishWork(cfg: Config, s: State) returns (es: seq<Event>, last: State)
    requires Inv(cfg, s) && s.producer.Finished? && Hopeful(cfg, s) && ShellTotal(cfg) && cfg.kinds != []
    ensures Run(cfg, s, es) == Some(last) && Over(last)
    decreases Work(s)
  {
    hide Step, IsWork, HousekeepingRun, WaitsPastTheEnd, Conserved, Contents, Work, ShellTotal, Run;
    StillAround(s);
    if s.counter == |cfg.inputs| {
      es, last := LeaveLoop(cfg, s);
    } else {
      var before, e, t := GoodWork(cfg, s);
      HousekeepingStaysHopeful(cfg, s, before, t);
      var next := Step(cfg, t, e).value;
      StepKeepsInv(cfg, t, e, next);
      StepStaysHopeful(cfg, t, e, next);
      assert !e.Produce? by { ProducingIsNoWork(t); }
      StepWork(cfg, t, e, next);
      es, last := FinishWork(cfg, next);
      RunAppend(cfg, s, before, t, e, next);
      RunConcat(cfg, s, before + [e], next, es);
      es := before + [e] + es;
    }
  }

  function ProducerSteps(cfg: Config, s: State): nat
    requires s.produced <= |cfg.inputs|
  {
    match s.producer
    case Producing => |cfg.inputs| - s.produced + 2
    case TotalStored => 1
    case Finished => 0
  }

  lemma ProducerMoves(cfg: Config, s: State) returns (e: Event, next: State)
    requires Inv(cfg, s) && !s.producer.Finished? && Hopeful(cfg, s)
    ensures Step(cfg, s, e) == Some(next) && Inv(cfg, next) && Hopeful(cfg, next)
    ensures ProducerSteps(cfg, next) < ProducerSteps(cfg, s)
  {
    hide Sum, Allowed, Places, Genuine, Contents, Conserved;
    e := if s.producer.TotalStored? then StoreFinished
         else if s.produced < |cfg.inputs| then Produce
         else StoreTotal;
    next := Step(cfg, s, e).value;
    StepKeepsInv(cfg, s, e, next);
  }

  lemma {:induction false} FinishAll(cfg: Config, s: State) returns (es: seq<Event>, last: State)
    requires Inv(cfg, s) && Hopeful(cfg, s) && ShellTotal(cfg) && cfg.kinds != []
    ensures Run(cfg, s, es) == Some(last) && Over(last)
    decreases ProducerSteps(cfg, s)
  {
    hide Step, Hopeful, Conserved, Contents, ShellTotal;
    if s.producer.Finished? {
      es, last := FinishWork(cfg, s);
    } else {
      var e, next := ProducerMoves(cfg, s);
      es, last := FinishAll(cfg, next);
      assert ([e] + es)[1..] == es;
      es := [e] + es;
    }
  }

  // ---------- Hanging ----------

  /** No job has been given up, and the end of the inputs is not announced yet. */
  predicate Unannounced(s: State) {
    s.failed == map[] && s.producer.TotalStored?
  }

  lemma StepStaysUnannounced(cfg: Config, s: State, e: Event, next: State)
    requires Step(cfg, s, e) == Some(next) && Unannounced(s) && !e.ExchangeFails? && !e.StoreFinished?
    ensures Unannounced(next)
  {
    hide Ran, Relayed;
  }

  lemma {:induction false} HousekeepingStaysUnannounced(cfg: Config, s: State, es: seq<Event>, t: State)
    requires Inv(cfg, s) && Unannounced(s) && HousekeepingRun(cfg, s, es) && Run(cfg, s, es) == Some(t)
    ensures Inv(cfg, t) && Unannounced(t) && Work(t) == Work(s)
    decreases |es|
  {
    hide Step, Inv, Unannounced, Work, IsWork;
    if es != [] {
      var next := Step(cfg, s, es[0]).value;
      StepKeepsInv(cfg, s, es[0], next);
      StepStaysUnannounced(cfg, s, es[0], next);
      StepWork(cfg, s, es[0], next);
      HousekeepingStaysUnannounced(cfg, next, es[1..], t);
    }
  }

  lemma {:induction false} HangAfterWork(cfg: Config, s: State) returns (es: seq<Event>, last: State)
    requires Inv(cfg, s) && Unannounced(s) && ShellTotal(cfg) && cfg.kinds != []
    ensures Run(cfg, s, es) == Some(last) && WaitsPastTheEnd(cfg, last)
    decreases Work(s)
  {
    hide Step, IsWork, HousekeepingRun, Conserved, Contents, Work, ShellTotal, Run;
    StillAround(s);
    if s.counter == |cfg.inputs| {
      es, last := TestTooEarly(cfg, s);
    } else {
      var before, e, t := GoodWork(cfg, s);
      HousekeepingStaysUnannounced(cfg, s, before, t);
      var next := Step(cfg, t, e).value;
      StepKeepsInv(cfg, t, e, next);
      assert !e.Produce? && !e.StoreFinished? by { ProducerDoesNoWork(t, e); }
      StepStaysUnannounced(cfg, t, e, next);
      StepWork(cfg, t, e, next);
      es, last := HangAfterWork(cfg, next);
      RunAppend(cfg, s, before, t, e, next);
      RunConcat(cfg, s, before + [e], next, es);
      es := before + [e] + es;
    }
  }

  lemma ProducerDoesNoWork(s: State, e: Event)
    ensures IsWork(s, e) ==> !e.Produce? && !e.StoreFinished?
  {
  }

  lemma TestTooEarly(cfg: Config, s: State) returns (es: seq<Event>, last: State)
    requires Inv(cfg, s) && Unannounced(s) && s.counter == |cfg.inputs|
    ensures Run(cfg, s, es) == Some(last) && WaitsPastTheEnd(cfg, last)
  {
    hide Sum, Conserved, Contents;
    last := s.(main := Waiting);
    assert [TestFinished][1..] == [];
    assert Run(cfg, last, []) == Some(last);
    es := if s.main.Waiting? then [] else [TestFinished];
  }

  lemma {:induction false} QueueEverything(cfg: Config, s: State) returns (es: seq<Event>, t: State)
    requires Inv(cfg, s) && s.failed == map[] && s.producer.Producing?
    ensures Run(cfg, s, es) == Some(t) && Inv(cfg, t) && Unannounced(t)
    decreases |cfg.inputs| - s.produced
  {
    hide Sum, Conserved, Contents, Run;
    var e := if s.produced < |cfg.inputs| then Produce else StoreTotal;
    var next := Step(cfg, s, e).value;
    StepKeepsInv(cfg, s, e, next);
    RunSingle(cfg, s, e, next);
    if e.Produce? {
      es, t := QueueEverything(cfg, next);
      RunConcat(cfg, s, [e], next, es);
      es := [e] + es;
    } else {
      es, t := [e], next;
    }
  }

  lemma RunSingle(cfg: Config, s: State, e: Event, next: State)
    requires Step(cfg, s, e) == Some(next)
    ensures Run(cfg, s, [e]) == Some(next)
  {
    hide Step;
    assert [e][1..] == [];
    assert Run(cfg, next, []) == Some(next);
  }

  /** Whatever its inputs, a client with a slot has a run in which all of them are printed and the
      main thread then waits for ever: it tests for the end just before that is announced. */
  lemma HangIsPossible(cfg: Config)
    requires ShellTotal(cfg) && cfg.kinds != []
    ensures exists es, last :: Run(cfg, Init(cfg), es) == Some(last) && WaitsPastTheEnd(cfg, last)
  {
    hide Step, Inv, Run, ShellTotal;
    InitInv(cfg);
    var queued, s := QueueEverything(cfg, Init(cfg));
    var es, last := HangAfterWork(cfg, s);
    RunConcat(cfg, Init(cfg), queued, s, es);
    assert Run(cfg, Init(cfg), queued + es) == Some(last);
  }

  /** From a state reached by any run, the client can get out of its loop exactly when no job has
      been given up and the main thread does not wait past the last job. */
  lemma CanFinishIff(cfg: Config, events: seq<Event>, s: State)
    requires Run(cfg, Init(cfg), events) == Some(s)
    requires ShellTotal(cfg) && cfg.kinds != []
    ensures (exists es, last :: Run(cfg, s, es) == Some(last) && Over(last)) <==> Hopeful(cfg, s)
  {
    hide Step, Inv, Run, ShellTotal;
    InitInv(cfg);
    RunKeepsInv(cfg, Init(cfg), events, s);
    if Hopeful(cfg, s) {
      var es, last := FinishAll(cfg, s);
    }
    forall es, last | Run(cfg, s, es) == Some(last) && Over(last)
      ensures Hopeful(cfg, s)
    {
      if !Hopeful(cfg, s) {
        NeverExits(cfg, s, es, last);
      }
    }
  }
}
