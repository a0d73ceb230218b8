/** The client's invariant holds initially and every step keeps it. */
module DispatcherInvariant {
  import opened Wrappers
  import opened Sums
  import opened Dispatcher
  import opened Jobs
  import TemplateLaws

  lemma {:induction false} SumZero<T>(xs: seq<T>, f: T -> nat)
    requires forall i | 0 <= i < |xs| :: f(xs[i]) == 0
    ensures Sum(xs, f) == 0
  {
    SumPositive(xs, f);
  }

  lemma InitInv(cfg: Config)
    ensures Inv(cfg, Init(cfg))
  {
    hide Sum;
    var s := Init(cfg);
    forall k: nat
      ensures Places(s, k) == 0
    {
      SumZero(s.fifo, IsJob(k));
      SumZero(s.retries, IsEntry(k));
      SumZero(s.slots, Holds(k));
    }
  }

  /** A job in a slot's hands is nowhere else. */
  lemma HeldIsNowhereElse(s: State, i: nat)
    requires Conserved(s) && i < |s.slots| && s.slots[i].Holding?
    ensures var k := s.slots[i].entry.jid;
            && k !in s.failed && k !in s.outputs && s.counter <= k < s.produced
            && (forall p | 0 <= p < |s.fifo| :: s.fifo[p].jid != k)
            && (forall p | 0 <= p < |s.retries| :: s.retries[p].jid != k)
            && (forall j | 0 <= j < |s.slots| && j != i :: s.slots[j].Holding? ==> s.slots[j].entry.jid != k)
  {
    hide Sum;
    var k := s.slots[i].entry.jid;
    assert Places(s, k) <= 1;
    SumAt(s.slots, i, Holds(k));
    SumPositive(s.fifo, IsJob(k));
    SumPositive(s.retries, IsEntry(k));
    forall p | 0 <= p < |s.fifo|
      ensures s.fifo[p].jid != k
    {
      assert IsJob(k)(s.fifo[p]) == 0;
    }
    forall p | 0 <= p < |s.retries|
      ensures s.retries[p].jid != k
    {
      assert IsEntry(k)(s.retries[p]) == 0;
    }
    forall j | 0 <= j < |s.slots| && j != i
      ensures s.slots[j].Holding? ==> s.slots[j].entry.jid != k
    {
      SumAtTwo(s.slots, i, j, Holds(k));
    }
  }

  // ---------- The producer ----------

  lemma ProducerKeepsInv(cfg: Config, s: State, e: Event, next: State)
    requires Inv(cfg, s) && ProducerStep(cfg, s, e) == Some(next)
    ensures Inv(cfg, next)
  {
    hide Sum, Allowed;
    forall k: nat
      ensures Places(next, k) == if k < next.produced then 1 else 0
    {
      assert Places(s, k) == if k < s.produced then 1 else 0;
      if e.Produce? {
        SumPush(s.fifo, Job(s.produced, cfg.inputs[s.produced]), IsJob(k));
      }
    }
    forall i | 0 <= i < |next.slots|
      ensures SlotOk(cfg, next, i)
    {
      assert SlotOk(cfg, s, i);
    }
  }

  // ---------- The main thread ----------

  lemma MainKeepsInv(cfg: Config, s: State, e: Event, next: State)
    requires Inv(cfg, s) && MainStep(s, e) == Some(next)
    ensures Inv(cfg, next)
  {
    hide Sum, Allowed;
    assert Places(s, s.counter) == if s.counter < s.produced then 1 else 0;
    forall k: nat
      ensures Places(next, k) == if k < next.produced then 1 else 0
    {
      assert Places(s, k) == if k < s.produced then 1 else 0;
    }
    forall i | 0 <= i < |next.slots|
      ensures SlotOk(cfg, next, i)
    {
      assert SlotOk(cfg, s, i);
    }
  }

  // ---------- The slots ----------

  /** A slot that holds no job before or after moves without touching anything else. */
  lemma HousekeepingKeepsInv(cfg: Config, s: State, i: nat, pc: Pc)
    requires Inv(cfg, s) && i < |s.slots| && !s.slots[i].Holding? && !pc.Holding?
    requires SlotOk(cfg, s.(slots := s.slots[i := pc]), i)
    ensures Inv(cfg, s.(slots := s.slots[i := pc]))
  {
    hide Sum, Allowed;
    var next := s.(slots := s.slots[i := pc]);
    forall k: nat
      ensures Places(next, k) == if k < next.produced then 1 else 0
    {
      assert Places(s, k) == if k < s.produced then 1 else 0;
      SumUpdate(s.slots, i, pc, Holds(k));
    }
    forall j | 0 <= j < |next.slots|
      ensures SlotOk(cfg, next, j)
    {
      assert SlotOk(cfg, s, j);
    }
  }

  lemma PopInputKeepsInv(cfg: Config, s: State, i: nat, next: State)
    requires Inv(cfg, s) && i < |s.slots| && SlotStep(cfg, s, i, PopInput(i)) == Some(next)
    requires s.fifo != []
    ensures Inv(cfg, next)
  {
    hide Sum, Allowed;
    var job := s.fifo[0];
    var pc := Holding(Entry(job.jid, job.input, 0));
    assert Genuine(cfg, s, job.jid, job.input, 0);
    forall k: nat
      ensures Places(next, k) == if k < next.produced then 1 else 0
    {
      assert Places(s, k) == if k < s.produced then 1 else 0;
      SumFront(s.fifo, IsJob(k));
      SumUpdate(s.slots, i, pc, Holds(k));
    }
    forall j | 0 <= j < |next.slots|
      ensures SlotOk(cfg, next, j)
    {
      assert SlotOk(cfg, s, j);
    }
  }

  lemma PopRetryKeepsInv(cfg: Config, s: State, i: nat, next: State)
    requires Inv(cfg, s) && i < |s.slots| && SlotStep(cfg, s, i, PopRetry(i)) == Some(next)
    requires s.retries != []
    ensures Inv(cfg, next)
  {
    hide Sum, Allowed;
    var last := |s.retries| - 1;
    var entry := s.retries[last];
    assert SlotOk(cfg, s, i);
    assert Genuine(cfg, s, entry.jid, entry.input, entry.tries);
    forall k: nat
      ensures Places(next, k) == if k < next.produced then 1 else 0
    {
      assert Places(s, k) == if k < s.produced then 1 else 0;
      SumPop(s.retries, IsEntry(k));
      SumUpdate(s.slots, i, Holding(entry), Holds(k));
    }
    forall j | 0 <= j < |next.slots|
      ensures SlotOk(cfg, next, j)
    {
      assert SlotOk(cfg, s, j);
    }
  }

  /** A result goes where no result was. */
  lemma StoreKeepsInv(cfg: Config, s: State, i: nat, output: Output)
    requires Inv(cfg, s) && i < |s.slots| && s.slots[i].Holding?
    requires Allowed(cfg, s.slots[i].entry.jid, output)
    ensures s.slots[i].entry.jid !in s.outputs
    ensures Inv(cfg, s.(slots := s.slots[i := Idle], outputs := s.outputs[s.slots[i].entry.jid := output]))
  {
    hide Sum, Allowed;
    var entry := s.slots[i].entry;
    var next := s.(slots := s.slots[i := Idle], outputs := s.outputs[entry.jid := output]);
    HeldIsNowhereElse(s, i);
    forall k: nat
      ensures Places(next, k) == if k < next.produced then 1 else 0
    {
      assert Places(s, k) == if k < s.produced then 1 else 0;
      SumUpdate(s.slots, i, Idle, Holds(k));
    }
    forall j | 0 <= j < |next.slots|
      ensures SlotOk(cfg, next, j)
    {
      assert SlotOk(cfg, s, j);
    }
  }

  lemma RanIsAllowed(cfg: Config, s: State, i: nat, sid: nat, captured: Captured)
    requires Inv(cfg, s) && i < |s.slots| && s.slots[i].Holding?
    requires Ran(cfg, cfg.kinds[i], i, s.slots[i].entry, sid, captured)
    ensures Allowed(cfg, s.slots[i].entry.jid,
                    Outcome(if cfg.kinds[i].Local? then captured else Relayed(captured)))
  {
    hide Relayed, Sum, Allowed;
    var entry := s.slots[i].entry;
    assert SlotOk(cfg, s, i);
    TemplateLaws.ExpandTokenised(cfg.template, sid, entry.jid, entry.input);
    assert cfg.kinds[i] in cfg.kinds;
    AllowedBy(cfg, entry.jid, sid, captured, if cfg.kinds[i].Local? then captured else Relayed(captured));
  }

  lemma AllowedBy(cfg: Config, k: nat, sid: nat, raw: Captured, captured: Captured)
    requires k < |cfg.inputs| && Justified(cfg, k, captured, sid, raw)
    ensures Allowed(cfg, k, Outcome(captured))
  {
  }

  lemma ExchangeFailsConserves(cfg: Config, s: State, i: nat, next: State)
    requires Conserved(s) && i < |s.slots| == |cfg.kinds| && SlotStep(cfg, s, i, ExchangeFails(i)) == Some(next)
    ensures Conserved(next)
  {
    hide Sum;
    var entry := s.slots[i].entry;
    HeldIsNowhereElse(s, i);
    forall k: nat
      ensures Places(next, k) == if k < next.produced then 1 else 0
    {
      assert Places(s, k) == if k < s.produced then 1 else 0;
      SumUpdate(s.slots, i, Idle, Holds(k));
      SumPush(s.retries, entry.(tries := entry.tries + 1), IsEntry(k));
    }
  }

  lemma ExchangeFailsKeepsContents(cfg: Config, s: State, i: nat, next: State)
    requires Shape(cfg, s) && Contents(cfg, s) && i < |s.slots| && SlotStep(cfg, s, i, ExchangeFails(i)) == Some(next)
    requires var k := s.slots[i].entry.jid;
             && (k !in s.failed) && (forall p | 0 <= p < |s.fifo| :: s.fifo[p].jid != k)
             && (forall p | 0 <= p < |s.retries| :: s.retries[p].jid != k)
             && (forall j | 0 <= j < |s.slots| && j != i :: s.slots[j].Holding? ==> s.slots[j].entry.jid != k)
    ensures Contents(cfg, next)
  {
    hide Allowed, Genuine;
    var entry := s.slots[i].entry;
    assert SlotOk(cfg, s, i);
    FailureCounted(cfg, s, next, entry);
    forall j | 0 <= j < |next.slots|
      ensures SlotOk(cfg, next, j)
    {
      assert SlotOk(cfg, s, j);
    }
    forall k | k in next.failed
      ensures Genuine(cfg, next, k, next.failed[k], 4)
    {
      assert k in s.failed ==> Genuine(cfg, s, k, s.failed[k], 4);
    }
  }

  lemma FailureCounted(cfg: Config, s: State, next: State, entry: Entry)
    requires Genuine(cfg, s, entry.jid, entry.input, entry.tries)
    requires next.produced == s.produced && next.failures == s.failures[entry.jid := s.failures[entry.jid] + 1]
    ensures Genuine(cfg, next, entry.jid, entry.input, entry.tries + 1)
    ensures forall k, input, n | k != entry.jid && Genuine(cfg, s, k, input, n) :: Genuine(cfg, next, k, input, n)
    ensures entry.jid < s.produced && s.failures[entry.jid] == entry.tries
  {
  }

  lemma ExchangeFailsKeepsInv(cfg: Config, s: State, i: nat, next: State)
    requires Inv(cfg, s) && i < |s.slots| && SlotStep(cfg, s, i, ExchangeFails(i)) == Some(next)
    ensures Inv(cfg, next)
  {
    hide Sum, Conserved, Contents;
    HeldIsNowhereElse(s, i);
    ExchangeFailsConserves(cfg, s, i, next);
    ExchangeFailsKeepsContents(cfg, s, i, next);
    assert cfg.kinds[i] in cfg.kinds;
  }

  lemma SlotKeepsInv(cfg: Config, s: State, i: nat, e: Event, next: State)
    requires Inv(cfg, s) && i < |s.slots| && SlotStep(cfg, s, i, e) == Some(next)
    ensures Inv(cfg, next)
  {
    hide Inv, Ran, Relayed, Genuine, Sum, Allowed;
    assert Shape(cfg, s) && Contents(cfg, s) by { InvParts(cfg, s); }
    assert SlotOk(cfg, s, i);
    match e
    case PopInput(_) =>
      if s.fifo == [] {
        HousekeepingKeepsInv(cfg, s, i, if cfg.kinds[i].Local? then Idle else QueueEmpty);
      } else {
        SlotEventIrrelevant(cfg, s, i, e);
        PopInputKeepsInv(cfg, s, i, next);
      }
    case PopRetry(_) =>
      if s.retries == [] {
        HousekeepingKeepsInv(cfg, s, i, Idle);
      } else {
        SlotEventIrrelevant(cfg, s, i, e);
        PopRetryKeepsInv(cfg, s, i, next);
      }
    case Complete(_, sid, captured) =>
      RanIsAllowed(cfg, s, i, sid, captured);
      StoreKeepsInv(cfg, s, i, Outcome(if cfg.kinds[i].Local? then captured else Relayed(captured)));
    case SpawnFails(_) =>
      LocalFailureAllowed(cfg, s, i);
      StoreKeepsInv(cfg, s, i, Failed);
    case ExchangeFails(_) =>
      SlotEventIrrelevant(cfg, s, i, e);
      ExchangeFailsKeepsInv(cfg, s, i, next);
    case Connect(_) =>
      HousekeepingKeepsInv(cfg, s, i, Idle);
    case TestKill(_) =>
      HousekeepingKeepsInv(cfg, s, i, if s.main.KillSet? then Stopped else Ready);
    case _ =>
  }

  lemma InvParts(cfg: Config, s: State)
    requires Inv(cfg, s)
    ensures Shape(cfg, s) && Conserved(s) && Contents(cfg, s)
  {
  }

  lemma LocalFailureAllowed(cfg: Config, s: State, i: nat)
    requires Inv(cfg, s) && i < |s.slots| && s.slots[i].Holding? && cfg.kinds[i].Local?
    ensures Allowed(cfg, s.slots[i].entry.jid, Failed)
  {
    assert SlotOk(cfg, s, i);
    assert cfg.kinds[i] in cfg.kinds;
  }

  /** The slot number carried by an event only selects the slot. */
  lemma SlotEventIrrelevant(cfg: Config, s: State, i: nat, e: Event)
    requires i < |s.slots| == |cfg.kinds|
    ensures e.PopInput? ==> SlotStep(cfg, s, i, e) == SlotStep(cfg, s, i, PopInput(i))
    ensures e.PopRetry? ==> SlotStep(cfg, s, i, e) == SlotStep(cfg, s, i, PopRetry(i))
    ensures e.ExchangeFails? ==> SlotStep(cfg, s, i, e) == SlotStep(cfg, s, i, ExchangeFails(i))
  {
  }

  // ---------- Runs ----------

  lemma StepKeepsInv(cfg: Config, s: State, e: Event, next: State)
    requires Inv(cfg, s) && Step(cfg, s, e) == Some(next)
    ensures Inv(cfg, next)
  {
    hide Inv, ProducerStep, MainStep, SlotStep;
    if e.Produce? || e.StoreTotal? || e.StoreFinished? {
      ProducerKeepsInv(cfg, s, e, next);
    } else if e.TestFinished? || e.TestTotal? || e.Collect? || e.SetKill? {
      MainKeepsInv(cfg, s, e, next);
    } else {
      SlotKeepsInv(cfg, s, e.i, e, next);
    }
  }

  lemma {:induction false} RunKeepsInv(cfg: Config, s: State, es: seq<Event>, last: State)
    requires Inv(cfg, s) && Run(cfg, s, es) == Some(last)
    ensures Inv(cfg, last)
    decreases |es|
  {
    hide Inv, Step;
    if es != [] {
      var next := Step(cfg, s, es[0]).value;
      StepKeepsInv(cfg, s, es[0], next);
      RunKeepsInv(cfg, next, es[1..], last);
    }
  }
}
