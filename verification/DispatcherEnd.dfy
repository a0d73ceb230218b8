/** The order in which the client takes its jobs, what it stores for them, and the end of its slots. */
module DispatcherEnd {
  import opened Wrappers
  import opened Sums
  import opened Dispatcher
  import opened DispatcherInvariant
  import opened DispatcherLaws
  import opened DispatcherProgress
  import opened Jobs
  import TemplateLaws
  import Tokenizer

  // ---------- The queue ----------

  /** The queue holds the jobs produced last, in order: those before them have been taken. */
  predicate InOrder(cfg: Config, s: State) {
    && |s.fifo| <= s.produced <= |cfg.inputs|
    && forall p | 0 <= p < |s.fifo| ::
         var k := s.produced - |s.fifo| + p;
         s.fifo[p] == Job(k, cfg.inputs[k])
  }

  lemma StepKeepsOrder(cfg: Config, s: State, e: Event, next: State)
    requires InOrder(cfg, s) && Step(cfg, s, e) == Some(next)
    ensures InOrder(cfg, next)
  {
    hide Ran, Relayed;
  }

  lemma {:induction false} RunKeepsOrder(cfg: Config, s: State, es: seq<Event>, last: State)
    requires InOrder(cfg, s) && Run(cfg, s, es) == Some(last)
    ensures InOrder(cfg, last)
    decreases |es|
  {
    hide Step, InOrder;
    if es != [] {
      StepKeepsOrder(cfg, s, es[0], Step(cfg, s, es[0]).value);
      RunKeepsOrder(cfg, Step(cfg, s, es[0]).value, es[1..], last);
    }
  }

  /** In every run jobs leave the queue in the order of the inputs: a slot that takes one gets the
      first that no slot has taken before. */
  lemma OldestFirst(cfg: Config, es: seq<Event>, s: State, i: nat, next: State)
    requires Run(cfg, Init(cfg), es) == Some(s) && s.fifo != [] && Step(cfg, s, PopInput(i)) == Some(next)
    ensures var k := s.produced - |s.fifo|;
            && InOrder(cfg, s) && InOrder(cfg, next) && |next.fifo| == |s.fifo| - 1
            && 0 <= k < |cfg.inputs| && i < |next.slots| && next.slots[i] == Holding(Entry(k, cfg.inputs[k], 0))
  {
    hide Run;
    RunKeepsOrder(cfg, Init(cfg), es, s);
    StepKeepsOrder(cfg, s, PopInput(i), next);
  }

  /** The job that failed last is retried first, with one more failure. */
  lemma LastFailedFirst(cfg: Config, s: State, i: nat, failed: State, j: nat)
    requires Step(cfg, s, ExchangeFails(i)) == Some(failed) && s.slots[i].entry.tries < 3
    requires i != j && j < |s.slots| && s.slots[j].QueueEmpty?
    ensures var entry := s.slots[i].entry;
            Step(cfg, failed, PopRetry(j)) ==
            Some(failed.(slots := failed.slots[j := Holding(entry.(tries := entry.tries + 1))], retries := s.retries))
  {
    assert failed.retries[..|s.retries|] == s.retries;
  }

  // ---------- Running a job ----------

  /** A slot that holds a job can store exactly what its own command line gives: a local slot's is
      made with the slot's own number and stored as it is, a remote one's as the wire relays it. */
  lemma CompleteMeans(cfg: Config, s: State, i: nat, sid: nat, captured: Captured)
    requires Inv(cfg, s) && i < |s.slots| == |cfg.kinds|
    ensures Step(cfg, s, Complete(i, sid, captured)).Some? <==>
            s.slots[i].Holding? && Captures(cfg, s.slots[i].entry.jid, sid, captured) && (cfg.kinds[i].Local? ==> sid == i)
    ensures Step(cfg, s, Complete(i, sid, captured)).Some? ==>
              Step(cfg, s, Complete(i, sid, captured)).value ==
              s.(slots := s.slots[i := Idle],
                 outputs := s.outputs[s.slots[i].entry.jid := Outcome(if cfg.kinds[i].Local? then captured else Relayed(captured))])
  {
    hide Tokenizer.Expand, Tokenizer.Tokenise, Tokenizer.CommandLine, Relayed, Conserved, Allowed;
    assert SlotOk(cfg, s, i);
    if s.slots[i].Holding? {
      var entry := s.slots[i].entry;
      TemplateLaws.ExpandTokenised(cfg.template, sid, entry.jid, entry.input);
    }
  }

  // ---------- The end of the slots ----------

  /** Steps a slot has left once `kill` is set. */
  function StepsToStop(): Pc -> nat {
    (pc: Pc) => match pc
                case Connecting => 2
                case Idle => 1
                case Ready => 3
                case QueueEmpty => 2
                case Holding(_) => 0
                case Stopped => 0
  }

  predicate IsSlotStep(e: Event) {
    !(e.Produce? || e.StoreTotal? || e.StoreFinished? || e.TestFinished? || e.TestTotal? || e.Collect? || e.SetKill?)
  }

  /** `kill` is set, and no job is left to be taken or held. */
  predicate Ending(cfg: Config, s: State) {
    && s.main.KillSet? && s.producer.Finished? && |s.slots| == |cfg.kinds| && s.fifo == [] && s.retries == []
    && forall i | 0 <= i < |s.slots| :: !s.slots[i].Holding?
  }

  lemma EndingStep(cfg: Config, s: State, e: Event, next: State)
    requires Ending(cfg, s) && Step(cfg, s, e) == Some(next)
    ensures IsSlotStep(e) && Ending(cfg, next) && next.printed == s.printed
    ensures Sum(next.slots, StepsToStop()) < Sum(s.slots, StepsToStop())
  {
    hide Sum;
    assert next.slots == s.slots[e.i := next.slots[e.i]];
    SumUpdate(s.slots, e.i, next.slots[e.i], StepsToStop());
  }

  lemma {:induction false} EndingRun(cfg: Config, s: State, es: seq<Event>, last: State)
    requires Ending(cfg, s) && Run(cfg, s, es) == Some(last)
    ensures Ending(cfg, last) && last.printed == s.printed
    ensures |es| + Sum(last.slots, StepsToStop()) <= Sum(s.slots, StepsToStop())
    decreases |es|
  {
    hide Step, Sum, Ending;
    if es != [] {
      var next := Step(cfg, s, es[0]).value;
      EndingStep(cfg, s, es[0], next);
      EndingRun(cfg, next, es[1..], last);
    }
  }

  lemma SlotCanStep(cfg: Config, s: State, i: nat) returns (e: Event)
    requires Ending(cfg, s) && i < |s.slots| && !s.slots[i].Stopped?
    ensures Step(cfg, s, e).Some?
  {
    match s.slots[i]
    case Connecting => e := Connect(i);
    case Idle => e := TestKill(i);
    case Ready => e := PopInput(i);
    case QueueEmpty => e := PopRetry(i);
  }

  lemma KillSetIsEnding(cfg: Config, es: seq<Event>, s: State)
    requires Run(cfg, Init(cfg), es) == Some(s) && s.main.KillSet?
    ensures Ending(cfg, s)
  {
    hide Run, Allowed, Places, Conserved;
    NothingLeftAtExit(cfg, es, s);
    InitInv(cfg);
    RunKeepsInv(cfg, Init(cfg), es, s);
  }

  /** Once `kill` is set the client takes at most three more steps a slot, prints nothing more, and as
      long as some slot has not stopped it can take one. A slot that is still connecting has to get
      its connection first. */
  lemma SlotsStop(cfg: Config, before: seq<Event>, s: State, es: seq<Event>, last: State)
    requires Run(cfg, Init(cfg), before) == Some(s) && s.main.KillSet? && Run(cfg, s, es) == Some(last)
    ensures |es| <= 3 * |cfg.kinds| && last.printed == s.printed && |last.slots| == |cfg.kinds|
    ensures (forall e :: Step(cfg, last, e).None?) <==> forall i | 0 <= i < |last.slots| :: last.slots[i].Stopped?
  {
    hide Run, Sum, Step;
    KillSetIsEnding(cfg, before, s);
    EndingRun(cfg, s, es, last);
    SumBound(s.slots, StepsToStop(), 3);
    if forall i | 0 <= i < |last.slots| :: last.slots[i].Stopped? {
      AllStopped(cfg, last);
    } else {
      var i :| 0 <= i < |last.slots| && !last.slots[i].Stopped?;
      var e := SlotCanStep(cfg, last, i);
    }
  }

  lemma AllStopped(cfg: Config, s: State)
    requires Ending(cfg, s) && forall i | 0 <= i < |s.slots| :: s.slots[i].Stopped?
    ensures forall e :: Step(cfg, s, e).None?
  {
  }

  lemma {:induction false} StopAll(cfg: Config, s: State) returns (es: seq<Event>, last: State)
    requires Ending(cfg, s)
    ensures Run(cfg, s, es) == Some(last) && Ending(cfg, last) && forall i | 0 <= i < |last.slots| :: last.slots[i].Stopped?
    decreases Sum(s.slots, StepsToStop())
  {
    hide Step, Sum;
    if forall i | 0 <= i < |s.slots| :: s.slots[i].Stopped? {
      es, last := [], s;
    } else {
      var i :| 0 <= i < |s.slots| && !s.slots[i].Stopped?;
      var e := SlotCanStep(cfg, s, i);
      var next := Step(cfg, s, e).value;
      EndingStep(cfg, s, e, next);
      es, last := StopAll(cfg, next);
      assert ([e] + es)[1..] == es;
      es := [e] + es;
    }
  }

  /** A client that has left its loop can set `kill` and bring all its slots to a stop. */
  lemma ClientCanEnd(cfg: Config, events: seq<Event>, s: State)
    requires Run(cfg, Init(cfg), events) == Some(s) && Over(s)
    ensures exists es, last :: Run(cfg, s, es) == Some(last) && last.main.KillSet? && last.printed == s.printed
                               && forall i | 0 <= i < |last.slots| :: last.slots[i].Stopped?
  {
    hide Run, Sum;
    var killed := s.(main := KillSet);
    var first := if s.main.Exited? then [SetKill] else [];
    if s.main.Exited? {
      RunSingle(cfg, s, SetKill, killed);
    } else {
      NoSteps(cfg, s);
    }
    RunConcat(cfg, Init(cfg), events, s, first);
    KillSetIsEnding(cfg, events + first, killed);
    var es, last := StopAll(cfg, killed);
    EndingRun(cfg, killed, es, last);
    RunConcat(cfg, s, first, killed, es);
    assert Run(cfg, s, first + es) == Some(last);
  }
}
