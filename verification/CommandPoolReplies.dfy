/** When replies belong to their requests, and when every waiting request has its job: along a run
    whatever it is, and for all runs in terms of the requests that arrive. */
module CommandPoolReplies {
  import opened Wrappers
  import opened Sums
  import opened Jobs
  import opened CommandPool
  import opened CommandPoolInvariant
  import opened CommandPoolLaws
  import opened CommandPoolRequests
  import opened CommandPoolScenarios
  import CommandTable
  import TemplateLaws
  import Tokenizer
  import Codec

  // ---------- Requests that agree ----------

  /** Requests that wait for the same job of the same command have the same input. */
  predicate Agree(s: State) {
    forall h, k | 0 <= h < |s.handlers| && 0 <= k < |s.handlers| && s.handlers[h].Waiting? && s.handlers[k].Waiting?
      && s.handlers[h].uid == s.handlers[k].uid && s.handlers[h].jid == s.handlers[k].jid ::
      s.handlers[h].input == s.handlers[k].input
  }

  ghost predicate AgreeAlong(world: World, es: seq<Event>) {
    forall n, s | 0 <= n <= |es| && Run(world, INIT, es[..n]) == Some(s) :: Agree(s)
  }

  /** Every copy a command has of job `jid` is of this input. */
  ghost predicate Own(world: World, unit: Unit, jid: nat, input: string) {
    && (forall p | 0 <= p < |unit.stack| :: unit.stack[p].jid == jid ==> unit.stack[p].input == input)
    && (forall w | 0 <= w < |unit.workers| ::
          unit.workers[w].Running? && unit.workers[w].job.jid == jid ==> unit.workers[w].job.input == input)
    && (jid in unit.outputs ==> Allowed(world, unit.template, jid, input, unit.outputs[jid]))
  }

  ghost predicate Genuine(world: World, s: State, h: Handler) {
    match h
    case Waiting(uid, jid, input) => uid < |s.units| && Own(world, s.units[uid], jid, input)
    case Answering(uid, jid, input, result) =>
      uid < |s.units| && Allowed(world, s.units[uid].template, jid, input, result)
    case Replied(uid, jid, input, result) =>
      uid < |s.units| && Allowed(world, s.units[uid].template, jid, input, result)
    case _ => true
  }

  ghost predicate AllGenuine(world: World, s: State) {
    forall h | 0 <= h < |s.handlers| :: Genuine(world, s, s.handlers[h])
  }

  /** A worker's step leaves every copy of a job the copy of the same input. */
  lemma WorkerKeepsOwn(world: World, unit: Unit, e: Event, next: Unit, jid: nat, input: string)
    requires UnitOk(world, unit) && Own(world, unit, jid, input)
    requires !e.Arrive? && !e.Acquire? && !e.Act? && !e.Release?
    requires WorkerStep(world, unit, e) == Some(next)
    ensures Own(world, next, jid, input)
  {
    hide Sum, Tokenizer.Expand, Tokenizer.Tokenise, Tokenizer.CommandLine;
    if e.Finish? && unit.workers[e.w].job.jid == jid && e.result.Some? {
      TemplateLaws.ExpandTokenised(unit.template, e.w, jid, input);
    }
  }

  lemma WorkerKeepsGenuine(world: World, s: State, e: Event, next: State)
    requires Inv(world, s) && AllGenuine(world, s)
    requires !e.Arrive? && !e.Acquire? && !e.Act? && !e.Release? && Step(world, s, e) == Some(next)
    ensures AllGenuine(world, next)
  {
    hide Sum, Places, WorkerStep, UnitOk, Own, Allowed;
    InvLock(world, s);
    var unit, after := s.units[e.uid], next.units[e.uid];
    WorkerKeepsUnit(world, unit, e, after);
    forall h | 0 <= h < |next.handlers|
      ensures Genuine(world, next, next.handlers[h])
    {
      assert Genuine(world, s, s.handlers[h]);
      if s.handlers[h].Waiting? && s.handlers[h].uid == e.uid {
        WorkerKeepsOwn(world, unit, e, after, s.handlers[h].jid, s.handlers[h].input);
      }
    }
  }

  /** A copy of a job that a new request finds is that of an earlier one, which still waits. */
  lemma FoundIsOwn(world: World, s: State, h: nat, next: State)
    requires Inv(world, s) && AllGenuine(world, s) && Agree(next)
    requires h < |s.handlers| && s.handlers[h].Looking? && ActStep(s, h) == Some(next) && next.handlers[h].Waiting?
    ensures var Waiting(uid, jid, input) := next.handlers[h];
            Own(world, s.units[uid], jid, input)
  {
    hide Sum, Allowed, Places, Own, LockInv, TableInv, UnitOk, HandlerOk;
    var Waiting(uid, jid, input) := next.handlers[h];
    assert Places(s.units[uid], jid) <= Waiters(s, uid, jid);
    if Places(s.units[uid], jid) == 0 {
      NotHere(s.units[uid], jid);
      NothingIsOwn(world, s.units[uid], jid, input);
    } else {
      SumPositive(s.handlers, WaitsFor(uid, jid));
      var k :| 0 <= k < |s.handlers| && WaitsFor(uid, jid)(s.handlers[k]) > 0;
      assert next.handlers[k] == s.handlers[k];
      assert Genuine(world, s, s.handlers[k]);
    }
  }

  lemma NothingIsOwn(world: World, unit: Unit, jid: nat, input: string)
    requires forall p | 0 <= p < |unit.stack| :: unit.stack[p].jid != jid
    requires forall w | 0 <= w < |unit.workers| :: unit.workers[w].Running? ==> unit.workers[w].job.jid != jid
    requires jid !in unit.outputs
    ensures Own(world, unit, jid, input)
  {
  }

  lemma PushIsOwn(world: World, unit: Unit, job: Job, jid: nat, input: string)
    requires Own(world, unit, jid, input) && (job.jid == jid ==> job.input == input)
    ensures Own(world, unit.(stack := unit.stack + [job]), jid, input)
  {
  }

  lemma PushKeepsGenuine(world: World, s: State, h: nat, next: State)
    requires Inv(world, s) && AllGenuine(world, s) && Agree(next)
    requires h < |s.handlers| && s.handlers[h].Looking? && ActStep(s, h) == Some(next)
    ensures AllGenuine(world, next)
  {
    hide Inv, Sum, Allowed, Own;
    var x := next.handlers[h];
    if x.Waiting? {
      FoundIsOwn(world, s, h, next);
    }
    forall k | 0 <= k < |next.handlers|
      ensures Genuine(world, next, next.handlers[k])
    {
      assert Genuine(world, s, s.handlers[k]);
      if x.Waiting? && next.handlers[k].Waiting? && next.handlers[k].uid == x.uid {
        assert next.handlers[k].jid == x.jid ==> next.handlers[k].input == x.input;
        PushIsOwn(world, s.units[x.uid], Job(x.jid, x.input), next.handlers[k].jid, next.handlers[k].input);
      }
    }
  }

  /** A handler's step that leaves units as they are, but for flags and collected results. */
  lemma MoveKeepsGenuine(world: World, s: State, h: nat, next: State)
    requires AllGenuine(world, s) && h < |s.handlers| == |next.handlers| && |next.units| == |s.units|
    requires next.handlers == s.handlers[h := next.handlers[h]]
    requires forall u | 0 <= u < |s.units| ::
               && next.units[u].template == s.units[u].template && next.units[u].stack == s.units[u].stack
               && next.units[u].workers == s.units[u].workers
               && forall j | j in next.units[u].outputs :: j in s.units[u].outputs && next.units[u].outputs[j] == s.units[u].outputs[j]
    requires Genuine(world, s, s.handlers[h]) ==> Genuine(world, next, next.handlers[h])
    ensures AllGenuine(world, next)
  {
    hide Allowed;
    forall k | 0 <= k < |next.handlers|
      ensures Genuine(world, next, next.handlers[k])
    {
      assert Genuine(world, s, s.handlers[k]);
    }
  }

  lemma ActKeepsGenuine(world: World, s: State, h: nat, next: State)
    requires AllGenuine(world, s) && h < |s.handlers| && !s.handlers[h].Looking? && ActStep(s, h) == Some(next)
    ensures AllGenuine(world, next)
  {
    hide AllGenuine, Allowed, CommandTable.Place, CommandTable.Clear;
    MoveKeepsGenuine(world, s, h, next);
  }

  lemma ArriveKeepsGenuine(world: World, s: State, request: Codec.JobEvent)
    requires AllGenuine(world, s)
    ensures AllGenuine(world, ArriveStep(world, s, request))
  {
    hide Allowed;
    var next := ArriveStep(world, s, request);
    forall k | 0 <= k < |next.handlers|
      ensures Genuine(world, next, next.handlers[k])
    {
      if k < |s.handlers| {
        assert Genuine(world, s, s.handlers[k]);
      }
    }
  }

  lemma {:induction false} RunKeepsGenuine(world: World, es: seq<Event>, s: State)
    requires Run(world, INIT, es) == Some(s) && AgreeAlong(world, es)
    ensures Inv(world, s) && AllGenuine(world, s)
    decreases |es|
  {
    hide Inv, Run, Step, AllGenuine, Agree, WorkerStep;
    if es == [] {
      InitInv(world);
      StartIsServed(world, s);
    } else {
      var before, e := es[..|es| - 1], es[|es| - 1];
      var mid := RunFront(world, INIT, es);
      assert es[..|es|] == es;
      assert forall n | 0 <= n <= |before| :: before[..n] == es[..n];
      RunKeepsGenuine(world, before, mid);
      StepKeepsInv(world, mid, e, s);
      StepKeepsGenuine(world, mid, e, s);
    }
  }

  lemma StartIsServed(world: World, s: State)
    requires Run(world, INIT, []) == Some(s)
    ensures s == INIT && AllGenuine(world, s) && Equal(s)
  {
    hide Sum, Places;
  }

  lemma StepKeepsGenuine(world: World, s: State, e: Event, next: State)
    requires Inv(world, s) && AllGenuine(world, s) && Agree(next) && Step(world, s, e) == Some(next)
    ensures AllGenuine(world, next)
  {
    hide Inv, AllGenuine, Agree, WorkerStep, ArriveStep, ActStep, Own, Allowed;
    match e
    case Arrive(request) => ArriveKeepsGenuine(world, s, request);
    case Acquire(h) => MoveKeepsGenuine(world, s, h, next);
    case Act(h) =>
      if s.handlers[h].Looking? {
        PushKeepsGenuine(world, s, h, next);
      } else {
        ActKeepsGenuine(world, s, h, next);
      }
    case Release(h) => MoveKeepsGenuine(world, s, h, next);
    case _ => WorkerKeepsGenuine(world, s, e, next);
  }

  /** In a run in which requests that wait together for the same job agree on its input, as retries
      do, every reply is a result of the request's own input. */
  lemma AgreedRepliesAreOwn(world: World, es: seq<Event>, s: State, h: nat)
    requires Run(world, INIT, es) == Some(s) && AgreeAlong(world, es) && h < |s.handlers|
    ensures Genuine(world, s, s.handlers[h])
  {
    hide Inv, Run, Genuine, AgreeAlong;
    RunKeepsGenuine(world, es, s);
  }

  // ---------- Replies, from the requests alone ----------

  ghost predicate RepliesBelong(world: World, s: State) {
    forall h | 0 <= h < |s.handlers| && s.handlers[h].Replied? ::
      s.handlers[h].uid < |s.units| &&
      Allowed(world, s.units[s.handlers[h].uid].template, s.handlers[h].jid, s.handlers[h].input, s.handlers[h].result)
  }

  /** Of two requests with the same ids, for a command that may get this id, whatever one input
      gives the other gives too. */
  ghost predicate Interchangeable(world: World, requests: seq<Codec.JobEvent>) {
    forall h, k, c | 0 <= h < |requests| && 0 <= k < |requests| && 0 <= c < |requests| && requests[c].Command?
      && SameJob(requests[h], requests[k]) && requests[h].cid < Commands(requests) ::
      GivesToo(world, requests[c].command, requests[h].jid, requests[k].input, requests[h].input)
  }

  ghost predicate GivesToo(world: World, template: string, jid: nat, other: string, input: string) {
    forall captured ::
      Allowed(world, template, jid, other, Some(captured)) ==> Allowed(world, template, jid, input, Some(captured))
  }

  lemma ReplyBelongs(world: World, requests: seq<Codec.JobEvent>, s: State, h: nat)
    requires Reaches(world, requests, s) && Interchangeable(world, requests)
    requires h < |s.handlers| && s.handlers[h].Replied?
    ensures var Replied(uid, jid, input, result) := s.handlers[h];
            uid < |s.units| && Allowed(world, s.units[uid].template, jid, input, result)
  {
    hide Reaches, Allowed, Commands;
    ReplyIsForItsIds(world, requests, s, h);
    var Replied(uid, jid, input, result) := s.handlers[h];
    var other :| Asked(requests, requests[h].cid, jid, other)
                 && Allowed(world, s.units[uid].template, jid, other, result);
    var k :| 0 <= k < |requests| && Asks(requests[k], requests[h].cid, jid, other);
    var c :| 0 <= c < |requests| && requests[c] == Codec.Command(s.units[uid].template);
    assert SameJob(requests[h], requests[k]);
    assert GivesToo(world, requests[c].command, jid, other, input);
    if result.None? {
      NoneIsAllowed(world, s.units[uid].template, jid, input);
    } else {
      assert result == Some(result.value);
    }
  }

  lemma InterchangeableIsEnough(world: World, requests: seq<Codec.JobEvent>, s: State)
    requires Reaches(world, requests, s) && Interchangeable(world, requests)
    ensures RepliesBelong(world, s)
  {
    hide Reaches, Interchangeable, Allowed;
    forall h | 0 <= h < |s.handlers| && s.handlers[h].Replied?
      ensures s.handlers[h].uid < |s.units| &&
              Allowed(world, s.units[s.handlers[h].uid].template, s.handlers[h].jid, s.handlers[h].input, s.handlers[h].result)
    {
      ReplyBelongs(world, requests, s, h);
    }
  }

  lemma NoneIsAllowed(world: World, template: string, jid: nat, input: string)
    ensures Allowed(world, template, jid, input, None)
  {
  }

  lemma InterchangeableIsNeeded(world: World, requests: seq<Codec.JobEvent>)
    requires forall s | Reaches(world, requests, s) :: RepliesBelong(world, s)
    ensures Interchangeable(world, requests)
  {
    hide Reaches, Tokenizer.CommandLine;
    forall h, k, c | 0 <= h < |requests| && 0 <= k < |requests| && 0 <= c < |requests| && requests[c].Command?
      && SameJob(requests[h], requests[k]) && requests[h].cid < Commands(requests)
      ensures GivesToo(world, requests[c].command, requests[h].jid, requests[k].input, requests[h].input)
    {
      forall captured | h != k && Allowed(world, requests[c].command, requests[h].jid, requests[k].input, Some(captured))
        ensures Allowed(world, requests[c].command, requests[h].jid, requests[h].input, Some(captured))
      {
        var w: nat :| w < world.cores
                      && world.shell(Tokenizer.CommandLine(requests[c].command, w, requests[h].jid, requests[k].input), captured);
        var s, uid := MixUp(world, requests, c, h, k, w, captured);
      }
    }
  }

  /** Whatever the interleaving, every reply is a result of the request's own input, exactly when
      requests with the same ids are interchangeable. */
  lemma RepliesBelongIff(world: World, requests: seq<Codec.JobEvent>)
    ensures (forall s | Reaches(world, requests, s) :: RepliesBelong(world, s)) <==> Interchangeable(world, requests)
  {
    hide Reaches, RepliesBelong, Interchangeable;
    if Interchangeable(world, requests) {
      forall s | Reaches(world, requests, s)
        ensures RepliesBelong(world, s)
      {
        InterchangeableIsEnough(world, requests, s);
      }
    }
    if forall s | Reaches(world, requests, s) :: RepliesBelong(world, s) {
      InterchangeableIsNeeded(world, requests);
    }
  }

  // ---------- Requests with distinct ids ----------

  /** No two requests wait for the same job of the same command. */
  ghost predicate Distinct(s: State) {
    forall uid, jid: nat :: Waiters(s, uid, jid) <= 1
  }

  ghost predicate DistinctAlong(world: World, es: seq<Event>) {
    forall n, s | 0 <= n <= |es| && Run(world, INIT, es[..n]) == Some(s) :: Distinct(s)
  }

  /** Commands have exactly the jobs that are waited for. */
  ghost predicate Equal(s: State) {
    forall uid, jid: nat | 0 <= uid < |s.units| :: Places(s.units[uid], jid) == Waiters(s, uid, jid)
  }

  /** Among distinct requests, a job that runs has no stored result that finishing could replace. */
  lemma NoSecondResult(s: State, uid: nat, w: nat)
    requires Distinct(s) && Covered(s) && uid < |s.units| && w < |s.units[uid].workers|
    requires s.units[uid].workers[w].Running?
    ensures s.units[uid].workers[w].job.jid !in s.units[uid].outputs
  {
    hide Sum;
    var unit := s.units[uid];
    var jid := unit.workers[w].job.jid;
    SumAt(unit.workers, w, Runs(jid));
    assert Places(unit, jid) <= Waiters(s, uid, jid) <= 1;
  }

  lemma WorkerKeepsEqual(world: World, s: State, e: Event, next: State)
    requires Inv(world, s) && Equal(s) && Distinct(s)
    requires !e.Arrive? && !e.Acquire? && !e.Act? && !e.Release? && Step(world, s, e) == Some(next)
    ensures Equal(next)
  {
    hide Sum, Places, WorkerStep, UnitOk;
    InvLock(world, s);
    var unit, after := s.units[e.uid], next.units[e.uid];
    WorkerKeepsUnit(world, unit, e, after);
    if e.Finish? {
      assert e.w < |unit.workers| && unit.workers[e.w].Running? by { FinishRuns(world, unit, e); }
      NoSecondResult(s, e.uid, e.w);
    }
    forall uid, jid: nat | 0 <= uid < |next.units|
      ensures Places(next.units[uid], jid) == Waiters(next, uid, jid)
    {
      assert Places(s.units[uid], jid) == Waiters(s, uid, jid);
    }
  }

  lemma FinishRuns(world: World, unit: Unit, e: Event)
    requires e.Finish? && WorkerStep(world, unit, e).Some?
    ensures e.w < |unit.workers| && unit.workers[e.w].Running?
  {
  }

  /** A handler that neither begins nor ends a wait. */
  lemma MoveKeepsEqual(s: State, h: nat, next: State)
    requires Equal(s) && h < |s.handlers| == |next.handlers| && |next.units| == |s.units|
    requires next.handlers == s.handlers[h := next.handlers[h]] && !s.handlers[h].Waiting? && !next.handlers[h].Waiting?
    requires forall u | 0 <= u < |s.units| ::
               next.units[u] == s.units[u].(kill := next.units[u].kill, listed := next.units[u].listed)
    ensures Equal(next)
  {
    hide Sum;
    forall u, j: nat | 0 <= u < |next.units|
      ensures Places(next.units[u], j) == Waiters(next, u, j)
    {
      assert Places(s.units[u], j) == Waiters(s, u, j);
      SumUpdate(s.handlers, h, next.handlers[h], WaitsFor(u, j));
    }
  }

  lemma ActKeepsEqual(s: State, h: nat, next: State)
    requires Equal(s) && h < |s.handlers| && ActStep(s, h) == Some(next)
    ensures Equal(next)
  {
    hide Sum, Equal, CommandTable.Place, CommandTable.Clear;
    if s.handlers[h].Waiting? || next.handlers[h].Waiting? {
      WaitKeepsEqual(s, h, next);
    } else {
      MoveKeepsEqual(s, h, next);
    }
  }

  lemma WaitKeepsEqual(s: State, h: nat, next: State)
    requires Equal(s) && h < |s.handlers| && ActStep(s, h) == Some(next)
    requires s.handlers[h].Waiting? || next.handlers[h].Waiting?
    ensures Equal(next)
  {
    hide Sum, CommandTable.Place, CommandTable.Clear;
    var x := next.handlers[h];
    forall u, j: nat | 0 <= u < |next.units|
      ensures Places(next.units[u], j) == Waiters(next, u, j)
    {
      assert Places(s.units[u], j) == Waiters(s, u, j);
      SumUpdate(s.handlers, h, x, WaitsFor(u, j));
      if x.Waiting? {
        SumPush(s.units[x.uid].stack, Job(x.jid, x.input), IsJob(j));
      }
    }
  }

  lemma ArriveKeepsEqual(world: World, s: State, request: Codec.JobEvent)
    requires Inv(world, s) && Equal(s)
    ensures Equal(ArriveStep(world, s, request))
  {
    hide Sum, LockInv, TableInv, UnitOk, HandlerOk, Covered;
    var next := ArriveStep(world, s, request);
    var added := next.handlers[|s.handlers|];
    assert next.handlers == s.handlers + [added];
    forall u, j: nat | 0 <= u < |next.units|
      ensures Places(next.units[u], j) == Waiters(next, u, j)
    {
      SumPush(s.handlers, added, WaitsFor(u, j));
      if u < |s.units| {
        assert Places(s.units[u], j) == Waiters(s, u, j);
      } else {
        FreshUnit(world, request.command, j);
        NoneWaitYet(world, s, u, j);
      }
    }
  }

  lemma NoneWaitYet(world: World, s: State, uid: nat, jid: nat)
    requires Inv(world, s) && uid >= |s.units|
    ensures Waiters(s, uid, jid) == 0
  {
    hide Sum, Places;
    SumPositive(s.handlers, WaitsFor(uid, jid));
    assert forall h | 0 <= h < |s.handlers| :: HandlerOk(s, s.handlers[h]);
  }

  lemma StepKeepsEqual(world: World, s: State, e: Event, next: State)
    requires Inv(world, s) && Equal(s) && Distinct(s) && Step(world, s, e) == Some(next)
    ensures Equal(next)
  {
    hide Inv, Equal, Distinct, ActStep, WorkerStep, ArriveStep;
    match e
    case Arrive(request) => ArriveKeepsEqual(world, s, request);
    case Acquire(h) => MoveKeepsEqual(s, h, next);
    case Act(h) => ActKeepsEqual(s, h, next);
    case Release(h) => MoveKeepsEqual(s, h, next);
    case _ => WorkerKeepsEqual(world, s, e, next);
  }

  lemma {:induction false} RunKeepsEqual(world: World, es: seq<Event>, s: State)
    requires Run(world, INIT, es) == Some(s) && DistinctAlong(world, es)
    ensures Inv(world, s) && Equal(s) && Distinct(s)
    decreases |es|
  {
    hide Inv, Run, Step, Equal, Distinct;
    assert es[..|es|] == es;
    if es == [] {
      InitInv(world);
      StartIsServed(world, s);
    } else {
      var before, e := es[..|es| - 1], es[|es| - 1];
      var mid := RunFront(world, INIT, es);
      assert forall n | 0 <= n <= |before| :: before[..n] == es[..n];
      RunKeepsEqual(world, before, mid);
      StepKeepsInv(world, mid, e, s);
      StepKeepsEqual(world, mid, e, s);
    }
  }

  /** Every request that waits has its job in exactly one place. */
  ghost predicate OneCopyEach(s: State) {
    forall h | 0 <= h < |s.handlers| && s.handlers[h].Waiting? ::
      s.handlers[h].uid < |s.units| && Places(s.units[s.handlers[h].uid], s.handlers[h].jid) == 1
  }

  lemma DistinctAgree(s: State)
    requires Distinct(s)
    ensures Agree(s)
  {
    hide Sum;
    forall h, k | 0 <= h < |s.handlers| && 0 <= k < |s.handlers| && h != k && s.handlers[h].Waiting? && s.handlers[k].Waiting?
      ensures s.handlers[h].uid != s.handlers[k].uid || s.handlers[h].jid != s.handlers[k].jid
    {
      assert Waiters(s, s.handlers[h].uid, s.handlers[h].jid) <= 1;
      SumAtTwo(s.handlers, h, k, WaitsFor(s.handlers[h].uid, s.handlers[h].jid));
    }
  }

  /** In a run whose waiting requests have distinct ids, each has its job in exactly one place: on
      the stack, with a worker, or as a result of its own input; and every reply is its own. */
  lemma DistinctAreServedOnce(world: World, es: seq<Event>, s: State)
    requires Run(world, INIT, es) == Some(s) && DistinctAlong(world, es)
    ensures OneCopyEach(s) && AllGenuine(world, s)
  {
    hide Run, Inv, Sum, Places, Distinct, Agree, AllGenuine;
    RunKeepsEqual(world, es, s);
    forall n, t | 0 <= n <= |es| && Run(world, INIT, es[..n]) == Some(t)
      ensures Agree(t)
    {
      DistinctAgree(t);
    }
    RunKeepsGenuine(world, es, s);
    EqualIsOneEach(world, s);
  }

  lemma EqualIsOneEach(world: World, s: State)
    requires Inv(world, s) && Equal(s) && Distinct(s)
    ensures OneCopyEach(s)
  {
    hide Inv, Sum, Places;
    InvLock(world, s);
    forall h | 0 <= h < |s.handlers| && s.handlers[h].Waiting?
      ensures s.handlers[h].uid < |s.units| && Places(s.units[s.handlers[h].uid], s.handlers[h].jid) == 1
    {
      var Waiting(uid, jid, input) := s.handlers[h];
      assert HandlerOk(s, s.handlers[h]);
      SumAt(s.handlers, h, WaitsFor(uid, jid));
      assert Waiters(s, uid, jid) <= 1;
    }
  }

  /** No two requests name the same job of a command that may exist. */
  predicate DistinctIds(requests: seq<Codec.JobEvent>) {
    forall h, k | 0 <= h < |requests| && 0 <= k < |requests| && h != k
      && SameJob(requests[h], requests[k]) :: requests[h].cid >= Commands(requests)
  }

  lemma SumAtMostOne(handlers: seq<Handler>, uid: nat, jid: nat)
    requires forall h, k | 0 <= h < |handlers| && 0 <= k < |handlers| && h != k ::
               WaitsFor(uid, jid)(handlers[h]) == 0 || WaitsFor(uid, jid)(handlers[k]) == 0
    ensures Sum(handlers, WaitsFor(uid, jid)) <= 1
  {
    hide Sum;
    SumPositive(handlers, WaitsFor(uid, jid));
    if h :| 0 <= h < |handlers| && WaitsFor(uid, jid)(handlers[h]) > 0 {
      SumUpdate(handlers, h, Closed(Deleted), WaitsFor(uid, jid));
      SumPositive(handlers[h := Closed(Deleted)], WaitsFor(uid, jid));
    }
  }

  lemma DistinctIdsWaitDistinctly(world: World, requests: seq<Codec.JobEvent>, more: seq<Codec.JobEvent>, s: State)
    requires Reaches(world, requests, s) && DistinctIds(requests + more)
    ensures Distinct(s)
  {
    hide Reaches, Sum, AskedResult, UnitAsked, Fits;
    ReachedIsSourced(world, requests, s);
    TableFits(requests, s);
    CommandsGrow(requests, more);
    InvLock(world, s);
    var all := requests + more;
    assert forall h | 0 <= h < |requests| :: all[h] == requests[h];
    forall uid, jid: nat
      ensures Waiters(s, uid, jid) <= 1
    {
      forall h, k | 0 <= h < |s.handlers| && 0 <= k < |s.handlers| && h != k
        ensures WaitsFor(uid, jid)(s.handlers[h]) == 0 || WaitsFor(uid, jid)(s.handlers[k]) == 0
      {
        assert Serves(world, s, requests, requests[h], s.handlers[h]);
        assert Serves(world, s, requests, requests[k], s.handlers[k]);
        assert SameJob(all[h], all[k]) ==> all[h].cid >= Commands(all);
      }
      SumAtMostOne(s.handlers, uid, jid);
    }
  }

  lemma {:induction false} RequestsOfPrefix(es: seq<Event>, n: nat)
    requires n <= |es|
    ensures Requests(es[..n]) <= Requests(es)
    decreases |es|
  {
    if n < |es| {
      RequestsOfPrefix(es[..|es| - 1], n);
      assert es[..|es| - 1][..n] == es[..n];
    } else {
      assert es[..n] == es;
    }
  }

  lemma DistinctIdsAreEnough(world: World, requests: seq<Codec.JobEvent>, s: State)
    requires Reaches(world, requests, s) && DistinctIds(requests)
    ensures OneCopyEach(s)
  {
    hide Run, Distinct, DistinctIds, OneCopyEach;
    var es :| Run(world, INIT, es) == Some(s) && Requests(es) == requests;
    forall n, t | 0 <= n <= |es| && Run(world, INIT, es[..n]) == Some(t)
      ensures Distinct(t)
    {
      RequestsOfPrefix(es, n);
      var first := Requests(es[..n]);
      assert first + requests[|first|..] == requests;
      DistinctIdsWaitDistinctly(world, first, requests[|first|..], t);
    }
    DistinctAreServedOnce(world, es, s);
  }

  lemma SomeCommand(requests: seq<Codec.JobEvent>) returns (c: nat)
    requires Commands(requests) > 0
    ensures c < |requests| && requests[c].Command?
  {
    c := |requests| - 1;
    if !requests[c].Command? {
      c := SomeCommand(requests[..c]);
    }
  }

  lemma BothWaitIsTwo(world: World, requests: seq<Codec.JobEvent>, c: nat, h: nat, k: nat, s: State, uid: nat)
    requires BothWait(world, requests, c, h, k, s, uid)
    ensures !OneCopyEach(s)
  {
    hide Sum;
    SumAtTwo(s.units[uid].stack, 0, 1, IsJob(requests[h].jid));
    assert s.handlers[h].Waiting?;
  }

  lemma DistinctIdsAreNeeded(world: World, requests: seq<Codec.JobEvent>)
    requires forall s | Reaches(world, requests, s) :: OneCopyEach(s)
    ensures DistinctIds(requests)
  {
    hide Reaches, Places;
    forall h, k | 0 <= h < |requests| && 0 <= k < |requests| && h != k && SameJob(requests[h], requests[k])
      ensures requests[h].cid >= Commands(requests)
    {
      if requests[h].cid < Commands(requests) {
        var c := SomeCommand(requests);
        var s, uid := BothCanWait(world, requests, c, h, k);
        BothWaitIsTwo(world, requests, c, h, k, s, uid);
      }
    }
  }

  /** Whatever the interleaving, every waiting request has its job in exactly one place, exactly
      when no two requests have the same ids. */
  lemma ServedOnceIff(world: World, requests: seq<Codec.JobEvent>)
    ensures (forall s | Reaches(world, requests, s) :: OneCopyEach(s)) <==> DistinctIds(requests)
  {
    hide Reaches, OneCopyEach, DistinctIds;
    if DistinctIds(requests) {
      forall s | Reaches(world, requests, s)
        ensures OneCopyEach(s)
      {
        DistinctIdsAreEnough(world, requests, s);
      }
    }
    if forall s | Reaches(world, requests, s) :: OneCopyEach(s) {
      DistinctIdsAreNeeded(world, requests);
    }
  }
}
