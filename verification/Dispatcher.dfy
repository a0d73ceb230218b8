/** The client as a system of atomic steps: the producer, the slots and the main thread over
    the shared queues. Every step does at most one access to shared state; atomics are
    sequentially consistent. */
module Dispatcher {
  import opened Wrappers
  import opened Jobs
  import opened Sums
  import Escaping
  import Tokenizer

  // ---------- State ----------

  datatype Output = Outcome(captured: Captured) | Failed

  datatype Kind = Local | Remote

  /** One use of the client: the template, the accepted inputs in order, its slots, and which
      captures running a command line may give. */
  datatype Config = Config(template: string, inputs: seq<string>, kinds: seq<Kind>,
                           shell: (string, Captured) -> bool)

  /** A job in a slot's hands or on the retry stack, with the exchanges that failed so far. */
  datatype Entry = Entry(jid: nat, input: string, tries: nat)

  datatype Pc =
    | Connecting            // opening the connection, without looking at `kill`
    | Idle                  // about to test `kill`
    | Ready                 // `kill` was not set; about to pop the input queue
    | QueueEmpty            // the input queue was empty; about to pop the retry stack
    | Holding(entry: Entry) // running the job, or exchanging it with the server
    | Stopped

  datatype Producer = Producing | TotalStored | Finished

  datatype Main =
    | Testing   // about to load `inputs_finished`
    | Comparing // it was set; about to load `total_inputs`
    | Waiting   // in `outputs.get`
    | Exited    // out of the loop
    | KillSet

  datatype State = State(
    produced: nat,
    producer: Producer,
    total: nat,
    fifo: seq<Job>,
    slots: seq<Pc>,
    retries: seq<Entry>,
    failed: map<nat, string>,
    outputs: map<nat, Output>,
    counter: nat,
    main: Main,
    printed: seq<Output>,   // history: what the main thread has written
    failures: seq<nat>)     // history: failed exchanges of each job

  function Init(cfg: Config): State {
    State(0, Producing, 0, [],
          seq(|cfg.kinds|, i requires 0 <= i < |cfg.kinds| => if cfg.kinds[i].Local? then Idle else Connecting),
          [], map[], map[], 0, Testing, [], seq(|cfg.inputs|, _ => 0))
  }

  // ---------- Steps ----------

  datatype Event =
    | Produce
    | StoreTotal
    | StoreFinished
    | Connect(i: nat)
    | TestKill(i: nat)
    | PopInput(i: nat)
    | PopRetry(i: nat)
    | Complete(i: nat, sid: nat, captured: Captured)
    | SpawnFails(i: nat)
    | ExchangeFails(i: nat)
    | TestFinished
    | TestTotal
    | Collect
    | SetKill

  /** What the client has of a capture that came over the wire. */
  function Relayed(c: Captured): Captured {
    Captured(c.status,
             Escaping.Unescaped(Escaping.Escaped(c.stdout)),
             Escaping.Unescaped(Escaping.Escaped(c.stderr)))
  }

  function ProducerStep(cfg: Config, s: State, e: Event): Option<State> {
    match e
    case Produce =>
      if s.producer.Producing? && s.produced < |cfg.inputs| then
        Some(s.(fifo := s.fifo + [Job(s.produced, cfg.inputs[s.produced])], produced := s.produced + 1))
      else None
    case StoreTotal =>
      if s.producer.Producing? && s.produced == |cfg.inputs| then
        Some(s.(total := s.produced, producer := TotalStored))
      else None
    case StoreFinished =>
      if s.producer.TotalStored? then Some(s.(producer := Finished)) else None
    case _ => None
  }

  function MainStep(s: State, e: Event): Option<State> {
    match e
    case TestFinished =>
      if s.main.Testing? then Some(s.(main := if s.producer.Finished? then Comparing else Waiting)) else None
    case TestTotal =>
      if s.main.Comparing? then Some(s.(main := if s.counter == s.total then Exited else Waiting)) else None
    case Collect =>
      if s.main.Waiting? && s.counter in s.outputs then
        Some(s.(printed := s.printed + [s.outputs[s.counter]],
                outputs := s.outputs - {s.counter},
                counter := s.counter + 1,
                main := Testing))
      else None
    case SetKill =>
      if s.main.Exited? then Some(s.(main := KillSet)) else None
    case _ => None
  }

  /** Whether a slot may turn its job into this capture: the slot's own number stands for `{%}`
      in the client, the number of one of the server's slots over the wire. */
  predicate Ran(cfg: Config, kind: Kind, i: nat, entry: Entry, sid: nat, captured: Captured) {
    && (kind.Local? ==> sid == i)
    && cfg.shell(Tokenizer.Expand(Tokenizer.Tokenise(cfg.template), sid, entry.jid, entry.input), captured)
  }

  function SlotStep(cfg: Config, s: State, i: nat, e: Event): Option<State>
    requires i < |s.slots| == |cfg.kinds|
  {
    var pc, kind := s.slots[i], cfg.kinds[i];
    match (e, pc)
    case (Connect(_), Connecting) => Some(s.(slots := s.slots[i := Idle]))
    case (TestKill(_), Idle) => Some(s.(slots := s.slots[i := if s.main.KillSet? then Stopped else Ready]))
    case (PopInput(_), Ready) =>
      if s.fifo == [] then Some(s.(slots := s.slots[i := if kind.Local? then Idle else QueueEmpty]))
      else Some(s.(slots := s.slots[i := Holding(Entry(s.fifo[0].jid, s.fifo[0].input, 0))], fifo := s.fifo[1..]))
    case (PopRetry(_), QueueEmpty) =>
      if s.retries == [] then Some(s.(slots := s.slots[i := Idle]))
      else
        var last := |s.retries| - 1;
        Some(s.(slots := s.slots[i := Holding(s.retries[last])], retries := s.retries[..last]))
    case (Complete(_, sid, captured), Holding(entry)) =>
      if Ran(cfg, kind, i, entry, sid, captured) then
        Some(s.(slots := s.slots[i := Idle],
                outputs := s.outputs[entry.jid := Outcome(if kind.Local? then captured else Relayed(captured))]))
      else None
    case (SpawnFails(_), Holding(entry)) =>
      if kind.Local? then Some(s.(slots := s.slots[i := Idle], outputs := s.outputs[entry.jid := Failed]))
      else None
    case (ExchangeFails(_), Holding(entry)) =>
      if kind.Remote? && entry.jid < |s.failures| then
        var counted := s.(slots := s.slots[i := Idle],
                          failures := s.failures[entry.jid := s.failures[entry.jid] + 1]);
        if entry.tries == 3 then Some(counted.(failed := s.failed[entry.jid := entry.input]))
        else Some(counted.(retries := s.retries + [entry.(tries := entry.tries + 1)]))
      else None
    case _ => None
  }

  function Step(cfg: Config, s: State, e: Event): Option<State> {
    if e.Produce? || e.StoreTotal? || e.StoreFinished? then ProducerStep(cfg, s, e)
    else if e.TestFinished? || e.TestTotal? || e.Collect? || e.SetKill? then MainStep(s, e)
    else if e.i < |s.slots| == |cfg.kinds| then SlotStep(cfg, s, e.i, e)
    else None
  }

  /** The state a sequence of steps leads to, if each of them can be taken. */
  function Run(cfg: Config, s: State, es: seq<Event>): Option<State>
    decreases |es|
  {
    if es == [] then Some(s)
    else match Step(cfg, s, es[0])
         case None => None
         case Some(next) => Run(cfg, next, es[1..])
  }

  // ---------- Invariant ----------

  function IsEntry(k: nat): Entry -> nat {
    (entry: Entry) => if entry.jid == k then 1 else 0
  }

  function Holds(k: nat): Pc -> nat {
    (pc: Pc) => if pc.Holding? && pc.entry.jid == k then 1 else 0
  }

  /** The number of places job `k` is in. */
  function Places(s: State, k: nat): nat {
    Sum(s.fifo, IsJob(k)) + Sum(s.slots, Holds(k)) + Sum(s.retries, IsEntry(k)) +
    (if k in s.failed then 1 else 0) + (if k in s.outputs then 1 else 0) + (if k < s.counter then 1 else 0)
  }

  /** Every produced job is in exactly one place, every other job in none. */
  ghost predicate Conserved(s: State) {
    forall k: nat :: Places(s, k) == if k < s.produced then 1 else 0
  }

  predicate Shape(cfg: Config, s: State) {
    && |s.slots| == |cfg.kinds|
    && |s.failures| == |cfg.inputs|
    && s.produced <= |cfg.inputs|
    && s.counter == |s.printed|
    && (if s.producer.Producing? then s.total == 0 else s.produced == s.total == |cfg.inputs|)
    && (s.main.Comparing? || s.main.Exited? || s.main.KillSet? ==> s.producer.Finished?)
    && (s.main.Exited? || s.main.KillSet? ==> s.counter == |cfg.inputs|)
    && (s.retries != [] ==> Remote in cfg.kinds)
  }

  /** The job is the one with this number, and this many exchanges of it have failed. */
  predicate Genuine(cfg: Config, s: State, jid: nat, input: string, failures: nat) {
    jid < s.produced <= |cfg.inputs| == |s.failures| && input == cfg.inputs[jid] && s.failures[jid] == failures
  }

  predicate SlotOk(cfg: Config, s: State, i: nat)
    requires i < |s.slots| == |cfg.kinds|
  {
    match s.slots[i]
    case Connecting => cfg.kinds[i].Remote?
    case QueueEmpty => cfg.kinds[i].Remote?
    case Holding(entry) =>
      && Genuine(cfg, s, entry.jid, entry.input, entry.tries) && entry.tries <= 3
      && (cfg.kinds[i].Local? ==> entry.tries == 0)
    case Stopped => s.main.KillSet?
    case _ => true
  }

  /** Slot `sid` captured `raw` from job `k`'s command line, and this is what the client has of
      it: all of it from a slot of its own, what is relayed from a server's. */
  predicate Justified(cfg: Config, k: nat, captured: Captured, sid: nat, raw: Captured)
    requires k < |cfg.inputs|
  {
    && cfg.shell(Tokenizer.CommandLine(cfg.template, sid, k, cfg.inputs[k]), raw)
    && ((sid < |cfg.kinds| && cfg.kinds[sid].Local? && captured == raw)
        || (Remote in cfg.kinds && captured == Relayed(raw)))
  }

  /** A result job `k` may have. */
  ghost predicate Allowed(cfg: Config, k: nat, output: Output) {
    k < |cfg.inputs| &&
    match output
    case Failed => Local in cfg.kinds
    case Outcome(captured) => exists sid: nat, raw: Captured :: Justified(cfg, k, captured, sid, raw)
  }

  ghost predicate Contents(cfg: Config, s: State)
    requires |s.slots| == |cfg.kinds|
  {
    && (forall p | 0 <= p < |s.fifo| :: Genuine(cfg, s, s.fifo[p].jid, s.fifo[p].input, 0))
    && (forall p | 0 <= p < |s.retries| ::
          1 <= s.retries[p].tries <= 3 && Genuine(cfg, s, s.retries[p].jid, s.retries[p].input, s.retries[p].tries))
    && (forall i | 0 <= i < |s.slots| :: SlotOk(cfg, s, i))
    && (forall k | k in s.failed :: Genuine(cfg, s, k, s.failed[k], 4))
    && (forall k | k in s.outputs :: Allowed(cfg, k, s.outputs[k]))
    && (forall k | 0 <= k < |s.printed| :: Allowed(cfg, k, s.printed[k]))
    && (forall k | 0 <= k < |s.failures| :: s.failures[k] <= 4 && (s.produced <= k ==> s.failures[k] == 0))
  }

  ghost predicate Inv(cfg: Config, s: State) {
    Shape(cfg, s) && Conserved(s) && Contents(cfg, s)
  }
}
