/** The server as a system of atomic steps: request handlers under the read-write lock of the
    command table, and the workers of each command over its stack and outputs. */
module CommandPool {
  import opened Wrappers
  import opened Sums
  import opened Jobs
  import Codec
  import CommandTable
  import Tokenizer

  // ---------- State ----------

  /** The number of slots a command gets, and which captures running a command line may give. */
  datatype World = World(cores: nat, shell: (string, Captured) -> bool)

  /** `None`: the command line could not be spawned. */
  type RunResult = Option<Captured>

  datatype Worker =
    | Testing            // about to load `kill`
    | Popping            // about to pop the stack
    | Running(job: Job)
    | Leaving            // out of the loop, about to count itself as parked
    | Parked

  datatype Unit = Unit(
    template: string,
    stack: seq<Job>,
    workers: seq<Worker>,
    outputs: map<nat, RunResult>,
    kill: bool,
    parked: nat,
    listed: bool)        // history: has been stored in the table

  /** What a request is answered with, but for the result of an input. */
  datatype Answer =
    | CommandId(id: nat)
    | NoSuchCommand(jid: nat, input: string)
    | Deleted
    | CommandList
    | Cores(n: nat)

  datatype Handler =
    | WantsRead(cid: nat, jid: nat, input: string)
    | Looking(cid: nat, jid: nat, input: string)                // holds the read lock from here
    | Waiting(uid: nat, jid: nat, input: string)                // the job is pushed; polling the outputs
    | Answering(uid: nat, jid: nat, input: string, result: RunResult)
    | NotFound(jid: nat, input: string)                         // to here
    | WantsStop(id: nat)
    | Stopping(id: nat)                                         // holds the write lock from here
    | Draining(id: nat, uid: nat)                               // `kill` is set; polling `parked`
    | Stopped(id: nat)                                          // to here
    | WantsPlace(uid: nat)                                      // the workers are spawned
    | Placing(uid: nat)                                         // holds the write lock from here
    | Placed(id: nat)                                           // to here
    | WantsList
    | Listing                                                   // holds the read lock
    | Replied(uid: nat, jid: nat, input: string, result: RunResult)
    | Closed(answer: Answer)

  datatype State = State(
    units: seq<Unit>,               // every command ever created, by number
    commands: seq<Option<nat>>,     // the table; entries are numbers of units
    readers: nat,
    writing: bool,
    handlers: seq<Handler>)

  const INIT: State := State([], [], 0, false, [])

  datatype Event =
    | Arrive(request: Codec.JobEvent)
    | Acquire(h: nat)
    | Act(h: nat)
    | Release(h: nat)
    | TestKill(uid: nat, w: nat)
    | Pop(uid: nat, w: nat)
    | Finish(uid: nat, w: nat, result: RunResult)
    | Park(uid: nat, w: nat)

  // ---------- Steps ----------

  function ArriveStep(world: World, s: State, request: Codec.JobEvent): State {
    match request
    case Command(template) =>
      var workers := seq(world.cores, _ => Testing);
      s.(units := s.units + [Unit(template, [], workers, map[], false, 0, false)],
         handlers := s.handlers + [WantsPlace(|s.units|)])
    case Input(cid, jid, input) => s.(handlers := s.handlers + [WantsRead(cid, jid, input)])
    case StopJob(id) => s.(handlers := s.handlers + [WantsStop(id)])
    case GetCommands => s.(handlers := s.handlers + [WantsList])
    case GetCores => s.(handlers := s.handlers + [Closed(Cores(world.cores))])
  }

  function AcquireStep(s: State, h: nat): Option<State>
    requires h < |s.handlers|
  {
    match s.handlers[h]
    case WantsRead(cid, jid, input) =>
      if s.writing then None
      else Some(s.(readers := s.readers + 1, handlers := s.handlers[h := Looking(cid, jid, input)]))
    case WantsList =>
      if s.writing then None
      else Some(s.(readers := s.readers + 1, handlers := s.handlers[h := Listing]))
    case WantsStop(id) =>
      if s.writing || s.readers > 0 then None
      else Some(s.(writing := true, handlers := s.handlers[h := Stopping(id)]))
    case WantsPlace(uid) =>
      if s.writing || s.readers > 0 then None
      else Some(s.(writing := true, handlers := s.handlers[h := Placing(uid)]))
    case _ => None
  }

  /** What a handler does next while it holds the lock. */
  function ActStep(s: State, h: nat): Option<State>
    requires h < |s.handlers|
  {
    match s.handlers[h]
    case Looking(cid, jid, input) =>
      if cid < |s.commands| && s.commands[cid].Some? && s.commands[cid].value < |s.units| then
        var uid := s.commands[cid].value;
        var unit := s.units[uid];
        Some(s.(units := s.units[uid := unit.(stack := unit.stack + [Job(jid, input)])],
                handlers := s.handlers[h := Waiting(uid, jid, input)]))
      else Some(s.(handlers := s.handlers[h := NotFound(jid, input)]))
    case Waiting(uid, jid, input) =>
      if uid < |s.units| && jid in s.units[uid].outputs then
        var unit := s.units[uid];
        Some(s.(units := s.units[uid := unit.(outputs := unit.outputs - {jid})],
                handlers := s.handlers[h := Answering(uid, jid, input, unit.outputs[jid])]))
      else None
    case Stopping(id) =>
      if id < |s.commands| && s.commands[id].Some? && s.commands[id].value < |s.units| then
        var uid := s.commands[id].value;
        Some(s.(units := s.units[uid := s.units[uid].(kill := true)],
                handlers := s.handlers[h := Draining(id, uid)]))
      else Some(s.(handlers := s.handlers[h := Stopped(id)]))
    case Draining(id, uid) =>
      if uid < |s.units| && s.units[uid].parked == |s.units[uid].workers| then
        Some(s.(commands := CommandTable.Clear(s.commands, id), handlers := s.handlers[h := Stopped(id)]))
      else None
    case Placing(uid) =>
      if uid < |s.units| then
        Some(s.(units := s.units[uid := s.units[uid].(listed := true)],
                commands := CommandTable.Place(s.commands, uid),
                handlers := s.handlers[h := Placed(CommandTable.FirstFree(s.commands))]))
      else None
    case _ => None
  }

  function ReleaseStep(s: State, h: nat): Option<State>
    requires h < |s.handlers|
  {
    match s.handlers[h]
    case Answering(uid, jid, input, result) =>
      if s.readers > 0 then
        Some(s.(readers := s.readers - 1, handlers := s.handlers[h := Replied(uid, jid, input, result)]))
      else None
    case NotFound(jid, input) =>
      if s.readers > 0 then
        Some(s.(readers := s.readers - 1, handlers := s.handlers[h := Closed(NoSuchCommand(jid, input))]))
      else None
    case Listing =>
      if s.readers > 0 then Some(s.(readers := s.readers - 1, handlers := s.handlers[h := Closed(CommandList)])) else None
    case Stopped(_) => Some(s.(writing := false, handlers := s.handlers[h := Closed(Deleted)]))
    case Placed(id) => Some(s.(writing := false, handlers := s.handlers[h := Closed(CommandId(id))]))
    case _ => None
  }

  /** A worker's pass through `slot_event`, on its own unit. */
  function WorkerStep(world: World, unit: Unit, e: Event): Option<Unit>
    requires !e.Arrive? && !e.Acquire? && !e.Act? && !e.Release?
  {
    if e.w >= |unit.workers| then None else
    match (e, unit.workers[e.w])
    case (TestKill(_, w), Testing) =>
      Some(unit.(workers := unit.workers[w := if unit.kill then Leaving else Popping]))
    case (Pop(_, w), Popping) =>
      if unit.stack == [] then Some(unit.(workers := unit.workers[w := Testing]))
      else
        var top := |unit.stack| - 1;
        Some(unit.(workers := unit.workers[w := Running(unit.stack[top])], stack := unit.stack[..top]))
    case (Finish(_, w, result), Running(job)) =>
      if result.None? || world.shell(Tokenizer.Expand(Tokenizer.Tokenise(unit.template), w, job.jid, job.input), result.value)
      then Some(unit.(workers := unit.workers[w := Testing], outputs := unit.outputs[job.jid := result]))
      else None
    case (Park(_, w), Leaving) =>
      Some(unit.(workers := unit.workers[w := Parked], parked := unit.parked + 1))
    case _ => None
  }

  function Step(world: World, s: State, e: Event): Option<State> {
    match e
    case Arrive(request) => Some(ArriveStep(world, s, request))
    case Acquire(h) => if h < |s.handlers| then AcquireStep(s, h) else None
    case Act(h) => if h < |s.handlers| then ActStep(s, h) else None
    case Release(h) => if h < |s.handlers| then ReleaseStep(s, h) else None
    case _ =>
      if e.uid < |s.units| then
        match WorkerStep(world, s.units[e.uid], e)
        case None => None
        case Some(unit) => Some(s.(units := s.units[e.uid := unit]))
      else None
  }

  function Run(world: World, s: State, es: seq<Event>): Option<State>
    decreases |es|
  {
    if es == [] then Some(s)
    else match Step(world, s, es[0])
         case None => None
         case Some(next) => Run(world, next, es[1..])
  }

  // ---------- Counting ----------

  function HoldsRead(): Handler -> nat {
    (h: Handler) => if h.Looking? || h.Waiting? || h.Answering? || h.NotFound? || h.Listing? then 1 else 0
  }

  function HoldsWrite(): Handler -> nat {
    (h: Handler) => if h.Stopping? || h.Draining? || h.Stopped? || h.Placing? || h.Placed? then 1 else 0
  }

  function WaitsFor(uid: nat, jid: nat): Handler -> nat {
    (h: Handler) => if h.Waiting? && h.uid == uid && h.jid == jid then 1 else 0
  }

  function Runs(jid: nat): Worker -> nat {
    (w: Worker) => if w.Running? && w.job.jid == jid then 1 else 0
  }

  function IsParked(): Worker -> nat {
    (w: Worker) => if w.Parked? then 1 else 0
  }

  /** Where a command has job `jid`: on the stack, with workers, among the outputs. */
  function Places(unit: Unit, jid: nat): nat {
    Sum(unit.stack, IsJob(jid)) + Sum(unit.workers, Runs(jid)) + if jid in unit.outputs then 1 else 0
  }

  function Waiters(s: State, uid: nat, jid: nat): nat {
    Sum(s.handlers, WaitsFor(uid, jid))
  }

  // ---------- Invariant ----------

  /** The lock's state is that of the handlers that hold it. */
  predicate LockInv(s: State) {
    && s.readers == Sum(s.handlers, HoldsRead())
    && (if s.writing then 1 else 0) == Sum(s.handlers, HoldsWrite())
    && (s.writing ==> s.readers == 0)
  }

  predicate UnitOk(world: World, unit: Unit) {
    && |unit.workers| == world.cores
    && unit.parked == Sum(unit.workers, IsParked())
    && (forall w | 0 <= w < |unit.workers| :: unit.workers[w].Leaving? || unit.workers[w].Parked? ==> unit.kill)
    && (unit.kill ==> unit.listed)
  }

  predicate HandlerOk(s: State, h: Handler) {
    match h
    case Waiting(uid, _, _) => uid < |s.units| && !s.units[uid].kill
    case Answering(uid, _, _, _) => uid < |s.units|
    case Replied(uid, _, _, _) => uid < |s.units|
    case WantsPlace(uid) => uid < |s.units| && !s.units[uid].listed
    case Placing(uid) => uid < |s.units| && !s.units[uid].listed
    case Draining(id, uid) =>
      uid < |s.units| && s.units[uid].kill && id < |s.commands| && s.commands[id] == Some(uid)
    case _ => true
  }

  predicate IsPlacing(h: Handler) {
    h.WantsPlace? || h.Placing?
  }

  /** Every unit is placed by one handler; table entries are live units, none of them twice, and
      one whose workers are told to stop is in the hands of the handler that told them. */
  predicate TableInv(s: State) {
    && (forall h, k | 0 <= h < k < |s.handlers| && IsPlacing(s.handlers[h]) && IsPlacing(s.handlers[k]) ::
          s.handlers[h].uid != s.handlers[k].uid)
    && (forall id | 0 <= id < |s.commands| && s.commands[id].Some? ::
          && s.commands[id].value < |s.units| && s.units[s.commands[id].value].listed
          && (s.units[s.commands[id].value].kill ==> Draining(id, s.commands[id].value) in s.handlers))
    && (forall id, other | 0 <= id < other < |s.commands| && s.commands[id].Some? :: s.commands[other] != s.commands[id])
  }

  /** A command never has more of a job than handlers wait for it. */
  ghost predicate Covered(s: State) {
    forall uid, jid: nat | 0 <= uid < |s.units| :: Places(s.units[uid], jid) <= Waiters(s, uid, jid)
  }

  ghost predicate Inv(world: World, s: State) {
    && LockInv(s)
    && (forall uid | 0 <= uid < |s.units| :: UnitOk(world, s.units[uid]))
    && (forall h | 0 <= h < |s.handlers| :: HandlerOk(s, s.handlers[h]))
    && TableInv(s)
    && Covered(s)
  }
}
