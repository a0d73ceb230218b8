/** What every run of the client keeps: results in order, no job lost or run again after its
    result, bounded retries and bounded work. */
module DispatcherLaws {
  import opened Wrappers
  import opened Sums
  import opened Dispatcher
  import opened Jobs
  import opened DispatcherInvariant
  import Escaping
  import Tokenizer

  // ---------- Refinement ----------

  /** One step of a client that runs its inputs one after the other. */
  ghost predicate SequentialStep(cfg: Config, done: seq<Output>, next: seq<Output>) {
    |next| == |done| + 1 && next[..|done|] == done && Allowed(cfg, |done|, next[|done|])
  }

  /** What such a client can have printed. */
  ghost predicate SequentialRun(cfg: Config, done: seq<Output>)
    decreases |done|
  {
    done == [] || (SequentialRun(cfg, done[..|done| - 1]) && SequentialStep(cfg, done[..|done| - 1], done))
  }

  /** A step of the concurrent client prints nothing or does what the sequential one does. */
  lemma StepRefines(cfg: Config, s: State, e: Event, next: State)
    requires Inv(cfg, s) && Step(cfg, s, e) == Some(next)
    ensures if e.Collect? then SequentialStep(cfg, s.printed, next.printed) else next.printed == s.printed
  {
    hide Allowed, Places, Genuine, Ran;
    if e.Collect? {
      assert next.printed == s.printed + [s.outputs[s.counter]];
    }
  }

  lemma {:induction false} RunRefines(cfg: Config, s: State, es: seq<Event>, last: State)
    requires Inv(cfg, s) && SequentialRun(cfg, s.printed) && Run(cfg, s, es) == Some(last)
    ensures SequentialRun(cfg, last.printed)
    decreases |es|
  {
    hide Inv, Step;
    if es != [] {
      var next := Step(cfg, s, es[0]).value;
      StepKeepsInv(cfg, s, es[0], next);
      StepRefines(cfg, s, es[0], next);
      assert next.printed != s.printed ==> next.printed[..|next.printed| - 1] == s.printed;
      RunRefines(cfg, next, es[1..], last);
    }
  }

  /** Whatever the interleaving, what has been printed is what a sequential run prints: a result
      of job 0, of job 1 and so on, each of its own input. */
  lemma ConcurrentRefinesSequential(cfg: Config, es: seq<Event>, last: State)
    requires Run(cfg, Init(cfg), es) == Some(last)
    ensures SequentialRun(cfg, last.printed)
    ensures last.counter == |last.printed| <= |cfg.inputs|
    ensures forall k | 0 <= k < last.counter :: Allowed(cfg, k, last.printed[k])
  {
    hide Step, Allowed;
    InitInv(cfg);
    RunKeepsInv(cfg, Init(cfg), es, last);
    RunRefines(cfg, Init(cfg), es, last);
    StillAround(last);
  }

  lemma RelayedUnchanged(c: Captured)
    ensures Escaping.Transparent(c.stdout) && Escaping.Transparent(c.stderr) <==> Relayed(c) == c
  {
    hide Escaping.Transparent, Escaping.Escaped, Escaping.Unescaped;
    Escaping.UnescapeEscape(c.stdout);
    Escaping.UnescapeEscape(c.stderr);
  }

  /** The command line of job `k` with its input, run by slot `sid`, may give this capture. */
  predicate Captures(cfg: Config, k: nat, sid: nat, captured: Captured) {
    k < |cfg.inputs| && cfg.shell(Tokenizer.CommandLine(cfg.template, sid, k, cfg.inputs[k]), captured)
  }

  ghost predicate IsCapture(cfg: Config, k: nat, captured: Captured) {
    exists sid: nat :: Captures(cfg, k, sid, captured)
  }

  /** What was printed for each job is what some slot captured from its command line. */
  ghost predicate PrintsCaptures(cfg: Config, s: State) {
    forall k | 0 <= k < |s.printed| && s.printed[k].Outcome? :: IsCapture(cfg, k, s.printed[k].captured)
  }

  /** What the wire makes of a capture of one of this client's command lines is a capture of it;
      no condition on a client without remote slots. */
  ghost predicate WireKeepsCaptures(cfg: Config) {
    Remote in cfg.kinds ==>
      forall k, sid: nat, captured | Captures(cfg, k, sid, captured) :: IsCapture(cfg, k, Relayed(captured))
  }

  /** As it does if all captures of this client's command lines are transparent. */
  lemma TransparentIsKept(cfg: Config)
    requires forall k, sid: nat, captured | Captures(cfg, k, sid, captured) ::
               Escaping.Transparent(captured.stdout) && Escaping.Transparent(captured.stderr)
    ensures WireKeepsCaptures(cfg)
  {
    hide Captures, Escaping.Transparent, Relayed;
    forall k, sid: nat, captured | Captures(cfg, k, sid, captured)
      ensures IsCapture(cfg, k, Relayed(captured))
    {
      RelayedUnchanged(captured);
    }
  }

  lemma AllowedIsCapture(cfg: Config, k: nat, output: Output)
    requires Allowed(cfg, k, output) && WireKeepsCaptures(cfg) && output.Outcome?
    ensures IsCapture(cfg, k, output.captured)
  {
    hide Relayed, Tokenizer.CommandLine;
    var sid: nat, raw: Captured :| Justified(cfg, k, output.captured, sid, raw);
    assert Captures(cfg, k, sid, raw);
  }

  lemma KeptArePrinted(cfg: Config, es: seq<Event>, last: State)
    requires Run(cfg, Init(cfg), es) == Some(last) && WireKeepsCaptures(cfg)
    ensures PrintsCaptures(cfg, last)
  {
    hide Run, Allowed, WireKeepsCaptures, IsCapture;
    ConcurrentRefinesSequential(cfg, es, last);
    forall k | 0 <= k < |last.printed| && last.printed[k].Outcome?
      ensures IsCapture(cfg, k, last.printed[k].captured)
    {
      AllowedIsCapture(cfg, k, last.printed[k]);
    }
  }

  // ---------- Conservation ----------

  /** Storing a result or giving a job up never replaces an earlier entry. */
  lemma StepOverwritesNothing(cfg: Config, s: State, e: Event, next: State)
    requires Inv(cfg, s) && Step(cfg, s, e) == Some(next)
    ensures e.Complete? || e.SpawnFails? ==>
              s.slots[e.i].Holding? && s.slots[e.i].entry.jid !in s.outputs
              && next.outputs.Keys == s.outputs.Keys + {s.slots[e.i].entry.jid}
    ensures forall k | k in s.failed :: k in next.failed && next.failed[k] == s.failed[k]
    ensures forall k | k in s.outputs && !(e.Collect? && k == s.counter) ::
              k in next.outputs && next.outputs[k] == s.outputs[k]
  {
    hide Allowed, Places, Genuine, Ran, Sum;
    if e.Complete? || e.SpawnFails? || e.ExchangeFails? {
      HeldIsNowhereElse(s, e.i);
    }
  }

  /** A job that is still anywhere has been produced and not been printed. */
  lemma StillAround(s: State)
    requires Conserved(s)
    ensures forall k | k in s.failed || k in s.outputs :: s.counter <= k < s.produced
    ensures forall p | 0 <= p < |s.fifo| :: s.counter <= s.fifo[p].jid < s.produced
    ensures forall p | 0 <= p < |s.retries| :: s.counter <= s.retries[p].jid < s.produced
    ensures forall i | 0 <= i < |s.slots| && s.slots[i].Holding? :: s.counter <= s.slots[i].entry.jid < s.produced
    ensures s.fifo != [] || s.retries != [] ==> s.counter < s.produced
    ensures s.counter <= s.produced
  {
    hide Sum;
    if s.counter > 0 {
      assert Places(s, s.counter - 1) >= 1;
    }
    forall k | k in s.failed || k in s.outputs
      ensures s.counter <= k < s.produced
    {
      assert Places(s, k) <= 1;
    }
    forall p | 0 <= p < |s.fifo|
      ensures s.counter <= s.fifo[p].jid < s.produced
    {
      assert Places(s, s.fifo[p].jid) <= 1;
      SumAt(s.fifo, p, IsJob(s.fifo[p].jid));
    }
    forall p | 0 <= p < |s.retries|
      ensures s.counter <= s.retries[p].jid < s.produced
    {
      assert Places(s, s.retries[p].jid) <= 1;
      SumAt(s.retries, p, IsEntry(s.retries[p].jid));
    }
    assert s.fifo != [] ==> s.counter <= s.fifo[0].jid < s.produced;
    assert s.retries != [] ==> s.counter <= s.retries[0].jid < s.produced;
    forall i | 0 <= i < |s.slots| && s.slots[i].Holding?
      ensures s.counter <= s.slots[i].entry.jid < s.produced
    {
      HeldIsNowhereElse(s, i);
    }
  }

  /** When the main thread has left its loop, every job has been printed and none is left
      anywhere: not in a queue, not given up, not in a slot's hands. */
  lemma NothingLeftAtExit(cfg: Config, es: seq<Event>, last: State)
    requires Run(cfg, Init(cfg), es) == Some(last)
    requires last.main.Exited? || last.main.KillSet?
    ensures |last.printed| == |cfg.inputs|
    ensures last.fifo == [] && last.retries == [] && last.failed == map[] && last.outputs == map[]
    ensures forall i | 0 <= i < |last.slots| :: !last.slots[i].Holding?
  {
    hide Sum, Step, Allowed;
    InitInv(cfg);
    RunKeepsInv(cfg, Init(cfg), es, last);
    StillAround(last);
    assert last.failed.Keys == {} && last.outputs.Keys == {};
  }

  // ---------- Retries ----------

  /** Whether the event ends an exchange of job `k` with a server. */
  predicate ExchangesJob(cfg: Config, s: State, e: Event, k: nat) {
    && (e.Complete? || e.ExchangeFails?)
    && e.i < |s.slots| == |cfg.kinds| && cfg.kinds[e.i].Remote?
    && s.slots[e.i].Holding? && s.slots[e.i].entry.jid == k
  }

  function Exchanges(cfg: Config, s: State, es: seq<Event>, k: nat): nat
    decreases |es|
  {
    if es == [] then 0
    else match Step(cfg, s, es[0])
         case None => 0
         case Some(next) => (if ExchangesJob(cfg, s, es[0], k) then 1 else 0) + Exchanges(cfg, next, es[1..], k)
  }

  function FailedExchanges(cfg: Config, s: State, es: seq<Event>, k: nat): nat
    decreases |es|
  {
    if es == [] then 0
    else match Step(cfg, s, es[0])
         case None => 0
         case Some(next) =>
           (if es[0].ExchangeFails? && ExchangesJob(cfg, s, es[0], k) then 1 else 0)
           + FailedExchanges(cfg, next, es[1..], k)
  }

  /** How many of its four exchanges job `k` has used up; all of them once it has a result. */
  function Spent(s: State, k: nat): nat
    requires k < |s.failures|
  {
    if k in s.outputs || k < s.counter then 4 else s.failures[k]
  }

  lemma SlotStepSpends(cfg: Config, s: State, i: nat, e: Event, next: State, k: nat)
    requires Inv(cfg, s) && i < |s.slots| == |cfg.kinds| && SlotStep(cfg, s, i, e) == Some(next) && e.i == i
    requires !(e.Produce? || e.StoreTotal? || e.StoreFinished? || e.TestFinished? || e.TestTotal? || e.Collect? || e.SetKill?)
    requires k < |cfg.inputs|
    ensures |next.failures| == |s.failures| == |cfg.inputs|
    ensures next.failures[k] == s.failures[k] + if e.ExchangeFails? && ExchangesJob(cfg, s, e, k) then 1 else 0
    ensures Spent(next, k) >= Spent(s, k) + if ExchangesJob(cfg, s, e, k) then 1 else 0
  {
    hide Inv, Begun, Ran, Relayed;
    BegunBound(cfg, s, k);
    FailuresBound(cfg, s, k);
  }

  lemma FailuresBound(cfg: Config, s: State, k: nat)
    requires Inv(cfg, s) && k < |cfg.inputs|
    ensures |s.failures| == |cfg.inputs| && s.failures[k] <= 4
  {
    hide Conserved, Allowed, Genuine, SlotOk;
  }

  lemma StepSpends(cfg: Config, s: State, e: Event, next: State, k: nat)
    requires Inv(cfg, s) && Step(cfg, s, e) == Some(next) && k < |cfg.inputs|
    ensures |next.failures| == |s.failures| == |cfg.inputs|
    ensures next.failures[k] == s.failures[k] + if e.ExchangeFails? && ExchangesJob(cfg, s, e, k) then 1 else 0
    ensures Spent(next, k) >= Spent(s, k) + if ExchangesJob(cfg, s, e, k) then 1 else 0
  {
    hide Inv, SlotStep;
    FailuresBound(cfg, s, k);
    if !(e.Produce? || e.StoreTotal? || e.StoreFinished? || e.TestFinished? || e.TestTotal? || e.Collect? || e.SetKill?) {
      SlotStepSpends(cfg, s, e.i, e, next, k);
    }
  }

  lemma {:induction false} RunSpends(cfg: Config, s: State, es: seq<Event>, last: State, k: nat)
    requires Inv(cfg, s) && Run(cfg, s, es) == Some(last) && k < |cfg.inputs|
    ensures |last.failures| == |s.failures| == |cfg.inputs|
    ensures last.failures[k] == s.failures[k] + FailedExchanges(cfg, s, es, k)
    ensures Spent(last, k) >= Spent(s, k) + Exchanges(cfg, s, es, k)
    decreases |es|
  {
    hide Step, ExchangesJob, Spent;
    if es != [] {
      var next := Step(cfg, s, es[0]).value;
      StepKeepsInv(cfg, s, es[0], next);
      StepSpends(cfg, s, es[0], next, k);
      RunSpends(cfg, next, es[1..], last, k);
    }
  }

  /** A job on the retry stack has failed as often as its entry says, one to three times; a job
      given up has failed four times; no job is exchanged more than four times. */
  lemma RetryAccounting(cfg: Config, es: seq<Event>, last: State)
    requires Run(cfg, Init(cfg), es) == Some(last)
    ensures forall p | 0 <= p < |last.retries| ::
              1 <= last.retries[p].tries <= 3
              && last.retries[p].tries == FailedExchanges(cfg, Init(cfg), es, last.retries[p].jid)
    ensures forall k | k in last.failed :: FailedExchanges(cfg, Init(cfg), es, k) == 4
    ensures forall k: nat | k < |cfg.inputs| :: Exchanges(cfg, Init(cfg), es, k) <= 4
  {
    hide Step, Sum, Places, Allowed, FailedExchanges, Exchanges;
    InitInv(cfg);
    RunKeepsInv(cfg, Init(cfg), es, last);
    forall k: nat | k < |cfg.inputs|
      ensures last.failures[k] == FailedExchanges(cfg, Init(cfg), es, k)
      ensures Exchanges(cfg, Init(cfg), es, k) <= 4
    {
      RunSpends(cfg, Init(cfg), es, last, k);
    }
  }

  /** A remote slot takes job `k`, which begins an exchange. */
  predicate BeginsExchange(cfg: Config, s: State, e: Event, k: nat) {
    && (e.PopInput? || e.PopRetry?) && e.i < |s.slots| == |cfg.kinds| && cfg.kinds[e.i].Remote?
    && (e.PopInput? ==> s.fifo != [] && s.fifo[0].jid == k)
    && (e.PopRetry? ==> s.retries != [] && s.retries[|s.retries| - 1].jid == k)
  }

  /** The `write_all` calls made in the exchanges of job `k`, the one in progress included;
      `calls(p)` are made in the exchange that begins at the run's p-th step. */
  function WriteCalls(cfg: Config, s: State, es: seq<Event>, p: nat, calls: nat -> nat, k: nat): nat
    decreases |es|
  {
    if es == [] then 0
    else match Step(cfg, s, es[0])
         case None => 0
         case Some(next) =>
           (if BeginsExchange(cfg, s, es[0], k) then calls(p) else 0) + WriteCalls(cfg, next, es[1..], p + 1, calls, k)
  }

  /** How many exchanges of job `k` have begun at most; all four once it has a result. */
  function Begun(s: State, k: nat): nat
    requires k < |s.failures|
  {
    if k in s.outputs || k < s.counter then 4 else s.failures[k] + Sum(s.slots, Holds(k))
  }

  lemma BegunBound(cfg: Config, s: State, k: nat)
    requires Inv(cfg, s) && k < |cfg.inputs|
    ensures |s.failures| == |cfg.inputs| && Begun(s, k) <= 4
    ensures forall i | 0 <= i < |s.slots| && s.slots[i].Holding? && s.slots[i].entry.jid == k ::
              s.failures[k] <= 3 && k !in s.outputs && s.counter <= k
  {
    hide Sum, Allowed;
    assert Places(s, k) <= 1;
    SumPositive(s.slots, Holds(k));
    forall i | 0 <= i < |s.slots| && s.slots[i].Holding? && s.slots[i].entry.jid == k
      ensures s.failures[k] <= 3 && k !in s.outputs && s.counter <= k
    {
      assert SlotOk(cfg, s, i);
      HeldIsNowhereElse(s, i);
    }
  }

  lemma SlotStepBegins(cfg: Config, s: State, i: nat, e: Event, next: State, k: nat)
    requires Inv(cfg, s) && Inv(cfg, next) && i < |s.slots| == |cfg.kinds| && SlotStep(cfg, s, i, e) == Some(next) && e.i == i
    requires !(e.Produce? || e.StoreTotal? || e.StoreFinished? || e.TestFinished? || e.TestTotal? || e.Collect? || e.SetKill?)
    requires k < |cfg.inputs|
    ensures |next.failures| == |s.failures| == |cfg.inputs|
    ensures Begun(next, k) >= Begun(s, k) + if BeginsExchange(cfg, s, e, k) then 1 else 0
  {
    hide Sum, Inv, Conserved, Ran, Relayed;
    BegunBound(cfg, s, k);
    BegunBound(cfg, next, k);
    SlotFacts(cfg, s, i);
    assert next.slots == s.slots[i := next.slots[i]];
    SumUpdate(s.slots, i, next.slots[i], Holds(k));
    assert i < |next.slots| && next.slots[i].Holding? && next.slots[i].entry.jid == k ==> k !in next.outputs && next.counter <= k;
  }

  lemma StepBegins(cfg: Config, s: State, e: Event, next: State, k: nat)
    requires Inv(cfg, s) && Inv(cfg, next) && Step(cfg, s, e) == Some(next) && k < |cfg.inputs|
    ensures |next.failures| == |s.failures| == |cfg.inputs|
    ensures Begun(next, k) >= Begun(s, k) + if BeginsExchange(cfg, s, e, k) then 1 else 0
  {
    hide Sum, SlotStep, Allowed, Places;
    if e.Produce? || e.StoreTotal? || e.StoreFinished? || e.TestFinished? || e.TestTotal? || e.Collect? || e.SetKill? {
      BegunBound(cfg, s, k);
    } else {
      SlotStepBegins(cfg, s, e.i, e, next, k);
    }
  }

  lemma {:induction false} RunBegins(cfg: Config, s: State, es: seq<Event>, p: nat, calls: nat -> nat, last: State, k: nat)
    requires Inv(cfg, s) && Run(cfg, s, es) == Some(last) && k < |cfg.inputs| && forall n :: calls(n) <= 4
    ensures |last.failures| == |s.failures| == |cfg.inputs|
    ensures WriteCalls(cfg, s, es, p, calls, k) + 4 * Begun(s, k) <= 4 * Begun(last, k)
    decreases |es|
  {
    hide Step, Begun, BeginsExchange, Contents, Conserved;
    if es != [] {
      var next := Step(cfg, s, es[0]).value;
      StepKeepsInv(cfg, s, es[0], next);
      StepBegins(cfg, s, es[0], next, k);
      RunBegins(cfg, next, es[1..], p + 1, calls, last, k);
    }
  }

  /** At no more than four calls an exchange, no more than sixteen calls are made while remote
      slots hold a job. */
  lemma AtMostSixteenWrites(cfg: Config, es: seq<Event>, last: State, calls: nat -> nat, k: nat)
    requires Run(cfg, Init(cfg), es) == Some(last) && k < |cfg.inputs| && forall n :: calls(n) <= 4
    ensures WriteCalls(cfg, Init(cfg), es, 0, calls, k) <= 16
  {
    hide Step, Begun, WriteCalls, Inv;
    InitInv(cfg);
    RunKeepsInv(cfg, Init(cfg), es, last);
    RunBegins(cfg, Init(cfg), es, 0, calls, last, k);
    BegunBound(cfg, last, k);
  }

  // ---------- Work ----------

  function HeldWork(pc: Pc): nat {
    if pc.Holding? && pc.entry.tries <= 3 then 8 - 2 * pc.entry.tries else 0
  }

  function RetryWork(entry: Entry): nat {
    if entry.tries <= 4 then 9 - 2 * entry.tries else 0
  }

  /** Steps still to be taken on the jobs produced so far: nine at most for each. */
  function Work(s: State): nat {
    9 * |s.fifo| + Sum(s.slots, HeldWork) + Sum(s.retries, RetryWork) + |s.outputs|
  }

  /** Taking a job, ending it either way, or printing a result. */
  predicate IsWork(s: State, e: Event) {
    || e.Complete? || e.SpawnFails? || e.ExchangeFails? || e.Collect?
    || (e.PopInput? && s.fifo != [])
    || (e.PopRetry? && s.retries != [])
  }

  lemma SlotFacts(cfg: Config, s: State, i: nat)
    requires Inv(cfg, s) && i < |s.slots|
    ensures |s.slots| == |cfg.kinds| && Conserved(s)
    ensures s.slots[i].Holding? ==> s.slots[i].entry.tries <= 3
    ensures s.retries != [] ==> 1 <= s.retries[|s.retries| - 1].tries <= 3
  {
    assert SlotOk(cfg, s, i);
  }

  lemma SlotStepWork(cfg: Config, s: State, i: nat, e: Event, next: State)
    requires Inv(cfg, s) && i < |s.slots| == |cfg.kinds| && SlotStep(cfg, s, i, e) == Some(next)
    ensures if IsWork(s, e) then Work(next) < Work(s) else Work(next) == Work(s)
  {
    hide Sum, Inv, Conserved, Ran, Relayed;
    SlotFacts(cfg, s, i);
    SumUpdate(s.slots, i, next.slots[i], HeldWork);
    assert next.slots == s.slots[i := next.slots[i]];
    if s.slots[i].Holding? {
      HeldIsNowhereElse(s, i);
    }
    if e.PopRetry? && s.retries != [] {
      SumPop(s.retries, RetryWork);
    }
    if e.ExchangeFails? && s.slots[i].entry.tries < 3 {
      SumPush(s.retries, s.slots[i].entry.(tries := s.slots[i].entry.tries + 1), RetryWork);
    }
  }

  lemma StepWork(cfg: Config, s: State, e: Event, next: State)
    requires Inv(cfg, s) && Step(cfg, s, e) == Some(next)
    ensures if e.Produce? then Work(next) == Work(s) + 9
            else if IsWork(s, e) then Work(next) < Work(s)
            else Work(next) == Work(s)
    ensures next.produced == s.produced + if e.Produce? then 1 else 0
  {
    hide Sum, Inv, SlotStep;
    if !(e.Produce? || e.StoreTotal? || e.StoreFinished? || e.TestFinished? || e.TestTotal? || e.Collect? || e.SetKill?) {
      SlotStepWork(cfg, s, e.i, e, next);
      SlotStepProducesNothing(cfg, s, e.i, e, next);
    }
  }

  lemma SlotStepProducesNothing(cfg: Config, s: State, i: nat, e: Event, next: State)
    requires i < |s.slots| == |cfg.kinds| && SlotStep(cfg, s, i, e) == Some(next)
    ensures next.produced == s.produced
  {
    hide Ran, Relayed;
  }

  function WorkSteps(cfg: Config, s: State, es: seq<Event>): nat
    decreases |es|
  {
    if es == [] then 0
    else match Step(cfg, s, es[0])
         case None => 0
         case Some(next) => (if IsWork(s, es[0]) then 1 else 0) + WorkSteps(cfg, next, es[1..])
  }

  lemma {:induction false} RunWork(cfg: Config, s: State, es: seq<Event>, last: State)
    requires Inv(cfg, s) && Run(cfg, s, es) == Some(last)
    ensures last.produced >= s.produced
    ensures WorkSteps(cfg, s, es) + Work(last) <= Work(s) + 9 * (last.produced - s.produced)
    decreases |es|
  {
    hide Step, Work, Inv, IsWork;
    if es != [] {
      var next := Step(cfg, s, es[0]).value;
      assert es[0].Produce? ==> !IsWork(s, es[0]) by { ProducingIsNoWork(s); }
      StepKeepsInv(cfg, s, es[0], next);
      StepWork(cfg, s, es[0], next);
      RunWork(cfg, next, es[1..], last);
    }
  }

  lemma ProducingIsNoWork(s: State)
    ensures !IsWork(s, Produce)
  {
  }

  /** No run takes more than nine steps of work for each job produced, and what it has taken
      comes off what is left. */
  lemma WorkIsBounded(cfg: Config, es: seq<Event>, last: State)
    requires Run(cfg, Init(cfg), es) == Some(last)
    ensures WorkSteps(cfg, Init(cfg), es) + Work(last) <= 9 * last.produced <= 9 * |cfg.inputs|
  {
    hide Step, Places, Allowed, WorkSteps;
    InitInv(cfg);
    RunKeepsInv(cfg, Init(cfg), es, last);
    RunWork(cfg, Init(cfg), es, last);
    SumZero(Init(cfg).slots, HeldWork);
  }
}
