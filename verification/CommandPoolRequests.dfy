/** What the server's state owes to the requests that have arrived: every handler, every queued
    job and every result goes back to one of them. */
module CommandPoolRequests {
  import opened Wrappers
  import opened Sums
  import opened Jobs
  import opened CommandPool
  import opened CommandPoolInvariant
  import CommandPoolLaws
  import CommandTable
  import TemplateLaws
  import Tokenizer
  import Codec

  // ---------- Requests ----------

  function Requests(es: seq<Event>): seq<Codec.JobEvent> {
    if es == [] then []
    else Requests(es[..|es| - 1]) + if es[|es| - 1].Arrive? then [es[|es| - 1].request] else []
  }

  /** A run in which exactly these requests arrive, in this order, ends in `s`. */
  ghost predicate Reaches(world: World, requests: seq<Codec.JobEvent>, s: State) {
    exists es :: Run(world, INIT, es) == Some(s) && Requests(es) == requests
  }

  lemma {:induction false} RunSnoc(world: World, s: State, es: seq<Event>, mid: State, e: Event)
    requires Run(world, s, es) == Some(mid)
    ensures Run(world, s, es + [e]) == Step(world, mid, e)
    decreases |es|
  {
    hide Step;
    if es == [] {
      assert (es + [e])[1..] == [];
      assert forall t :: Run(world, t, []) == Some(t);
    } else {
      RunSnoc(world, Step(world, s, es[0]).value, es[1..], mid, e);
      assert (es + [e])[1..] == es[1..] + [e];
    }
  }

  lemma ReachesInit(world: World)
    ensures Reaches(world, [], INIT)
  {
    assert Run(world, INIT, []) == Some(INIT) && Requests([]) == [];
  }

  lemma ReachesStep(world: World, requests: seq<Codec.JobEvent>, s: State, e: Event, next: State)
    requires Reaches(world, requests, s) && Step(world, s, e) == Some(next)
    ensures Reaches(world, if e.Arrive? then requests + [e.request] else requests, next)
  {
    hide Step, Run;
    var es :| Run(world, INIT, es) == Some(s) && Requests(es) == requests;
    RunSnoc(world, INIT, es, s, e);
    assert (es + [e])[..|es|] == es;
    assert Requests(es + [e]) == requests + if e.Arrive? then [e.request] else [];
  }

  // ---------- Where everything comes from ----------

  predicate Asks(request: Codec.JobEvent, cid: nat, jid: nat, input: string) {
    request.Input? && request.cid == cid && request.jid == jid && request.input == input
  }

  ghost predicate Asked(requests: seq<Codec.JobEvent>, cid: nat, jid: nat, input: string) {
    exists k :: 0 <= k < |requests| && Asks(requests[k], cid, jid, input)
  }

  /** A result a job may have: captured from its own command line, or none. */
  ghost predicate Allowed(world: World, template: string, jid: nat, input: string, result: RunResult) {
    result.None? ||
    exists w: nat :: w < world.cores && world.shell(Tokenizer.CommandLine(template, w, jid, input), result.value)
  }

  /** The result is one for an input that was asked for under this id. */
  ghost predicate AskedResult(world: World, requests: seq<Codec.JobEvent>, template: string, cid: nat, jid: nat,
                              result: RunResult) {
    exists input :: Asked(requests, cid, jid, input) && Allowed(world, template, jid, input, result)
  }

  /** All a command works on was asked for under the id it has in the table. */
  ghost predicate UnitAsked(world: World, requests: seq<Codec.JobEvent>, unit: Unit, cid: nat) {
    && (forall p | 0 <= p < |unit.stack| :: Asked(requests, cid, unit.stack[p].jid, unit.stack[p].input))
    && (forall w | 0 <= w < |unit.workers| && unit.workers[w].Running? ::
          Asked(requests, cid, unit.workers[w].job.jid, unit.workers[w].job.input))
    && (forall jid | jid in unit.outputs :: AskedResult(world, requests, unit.template, cid, jid, unit.outputs[jid]))
  }

  /** The handler is the one of this request. */
  ghost predicate Serves(world: World, s: State, requests: seq<Codec.JobEvent>, request: Codec.JobEvent, h: Handler) {
    match h
    case WantsRead(cid, jid, input) => Asks(request, cid, jid, input)
    case Looking(cid, jid, input) => Asks(request, cid, jid, input)
    case Waiting(uid, jid, input) =>
      && request.Input? && Asks(request, request.cid, jid, input)
      && request.cid < |s.commands| && s.commands[request.cid] == Some(uid)
    case Answering(uid, jid, input, result) =>
      && request.Input? && Asks(request, request.cid, jid, input)
      && request.cid < |s.commands| && uid < |s.units|
      && AskedResult(world, requests, s.units[uid].template, request.cid, jid, result)
    case Replied(uid, jid, input, result) =>
      && request.Input? && Asks(request, request.cid, jid, input)
      && request.cid < |s.commands| && uid < |s.units|
      && AskedResult(world, requests, s.units[uid].template, request.cid, jid, result)
    case _ => true
  }

  ghost predicate Sourced(world: World, requests: seq<Codec.JobEvent>, s: State) {
    && |s.handlers| == |requests|
    && (forall h | 0 <= h < |requests| :: Serves(world, s, requests, requests[h], s.handlers[h]))
    && (forall id | 0 <= id < |s.commands| && s.commands[id].Some? && s.commands[id].value < |s.units| ::
          UnitAsked(world, requests, s.units[s.commands[id].value], id))
    && (forall uid | 0 <= uid < |s.units| :: Codec.Command(s.units[uid].template) in requests)
  }

  lemma AskedStill(requests: seq<Codec.JobEvent>, request: Codec.JobEvent, cid: nat, jid: nat, input: string)
    requires Asked(requests, cid, jid, input)
    ensures Asked(requests + [request], cid, jid, input)
  {
    var k :| 0 <= k < |requests| && Asks(requests[k], cid, jid, input);
    assert (requests + [request])[k] == requests[k];
  }

  lemma AskedResultStill(world: World, requests: seq<Codec.JobEvent>, request: Codec.JobEvent, template: string,
                         cid: nat, jid: nat, result: RunResult)
    requires AskedResult(world, requests, template, cid, jid, result)
    ensures AskedResult(world, requests + [request], template, cid, jid, result)
  {
    hide Allowed;
    var input :| Asked(requests, cid, jid, input) && Allowed(world, template, jid, input, result);
    AskedStill(requests, request, cid, jid, input);
  }

  lemma UnitAskedStill(world: World, requests: seq<Codec.JobEvent>, request: Codec.JobEvent, unit: Unit, cid: nat)
    requires UnitAsked(world, requests, unit, cid)
    ensures UnitAsked(world, requests + [request], unit, cid)
  {
    hide Asked, AskedResult;
    forall jid, input | Asked(requests, cid, jid, input)
      ensures Asked(requests + [request], cid, jid, input)
    {
      AskedStill(requests, request, cid, jid, input);
    }
    forall jid | jid in unit.outputs
      ensures AskedResult(world, requests + [request], unit.template, cid, jid, unit.outputs[jid])
    {
      AskedResultStill(world, requests, request, unit.template, cid, jid, unit.outputs[jid]);
    }
  }

  lemma ServesStill(world: World, s: State, next: State, requests: seq<Codec.JobEvent>, request: Codec.JobEvent,
                    asked: Codec.JobEvent, h: Handler)
    requires Serves(world, s, requests, asked, h)
    requires next.commands == s.commands && |s.units| <= |next.units| && next.units[..|s.units|] == s.units
    ensures Serves(world, next, requests + [request], asked, h)
  {
    hide AskedResult;
    if h.Answering? || h.Replied? {
      AskedResultStill(world, requests, request, s.units[h.uid].template, asked.cid, h.jid, h.result);
      assert next.units[h.uid] == next.units[..|s.units|][h.uid];
    }
  }

  lemma ArriveKeepsSourced(world: World, requests: seq<Codec.JobEvent>, s: State, request: Codec.JobEvent)
    requires Inv(world, s) && Sourced(world, requests, s)
    ensures Sourced(world, requests + [request], ArriveStep(world, s, request))
  {
    hide Serves, UnitAsked, LockInv, Covered, UnitOk, HandlerOk;
    var next := ArriveStep(world, s, request);
    var all := requests + [request];
    assert next.units[..|s.units|] == s.units;
    forall h | 0 <= h < |all|
      ensures Serves(world, next, all, all[h], next.handlers[h])
    {
      if h < |requests| {
        ServesStill(world, s, next, requests, request, requests[h], s.handlers[h]);
      } else {
        NewHandler(world, s, requests, request);
      }
    }
    forall id | 0 <= id < |s.commands| && s.commands[id].Some?
      ensures s.commands[id].value < |s.units| && UnitAsked(world, all, next.units[s.commands[id].value], id)
    {
      UnitAskedStill(world, requests, request, s.units[s.commands[id].value], id);
    }
  }

  lemma NewHandler(world: World, s: State, requests: seq<Codec.JobEvent>, request: Codec.JobEvent)
    ensures var next := ArriveStep(world, s, request);
            && |next.handlers| == |s.handlers| + 1
            && Serves(world, next, requests + [request], request, next.handlers[|s.handlers|])
  {
  }

  /** A handler's step that changes neither units nor the table. */
  lemma MoveKeepsSourced(world: World, requests: seq<Codec.JobEvent>, s: State, next: State, h: nat)
    requires Sourced(world, requests, s) && h < |s.handlers|
    requires next.units == s.units && next.commands == s.commands
    requires |next.handlers| == |s.handlers| && next.handlers == s.handlers[h := next.handlers[h]]
    requires Serves(world, s, requests, requests[h], s.handlers[h]) ==>
               Serves(world, s, requests, requests[h], next.handlers[h])
    ensures Sourced(world, requests, next)
  {
    hide UnitAsked;
    forall k | 0 <= k < |requests|
      ensures Serves(world, next, requests, requests[k], next.handlers[k])
    {
      assert Serves(world, s, requests, requests[k], s.handlers[k]);
    }
  }

  lemma LookKeepsSourced(world: World, requests: seq<Codec.JobEvent>, s: State, h: nat, next: State)
    requires Inv(world, s) && Sourced(world, requests, s)
    requires h < |s.handlers| && s.handlers[h].Looking? && ActStep(s, h) == Some(next)
    ensures Sourced(world, requests, next)
  {
    hide LockInv, Covered, UnitOk, HandlerOk, AskedResult, Asked;
    var Looking(cid, jid, input) := s.handlers[h];
    assert Serves(world, s, requests, requests[h], s.handlers[h]);
    assert Asked(requests, cid, jid, input) by { assert Asks(requests[h], cid, jid, input); AskedBy(requests, h, cid, jid, input); }
    forall k | 0 <= k < |requests|
      ensures Serves(world, next, requests, requests[k], next.handlers[k])
    {
      assert Serves(world, s, requests, requests[k], s.handlers[k]);
    }
    forall id | 0 <= id < |next.commands| && next.commands[id].Some?
      ensures UnitAsked(world, requests, next.units[next.commands[id].value], id)
    {
      assert UnitAsked(world, requests, s.units[s.commands[id].value], id);
      assert id != cid && cid < |s.commands| && s.commands[cid].Some? ==> s.commands[id] != s.commands[cid];
    }
  }

  lemma AskedBy(requests: seq<Codec.JobEvent>, h: nat, cid: nat, jid: nat, input: string)
    requires h < |requests| && Asks(requests[h], cid, jid, input)
    ensures Asked(requests, cid, jid, input)
  {
  }

  lemma AnswerKeepsSourced(world: World, requests: seq<Codec.JobEvent>, s: State, h: nat, next: State)
    requires Inv(world, s) && Sourced(world, requests, s)
    requires h < |s.handlers| && s.handlers[h].Waiting? && ActStep(s, h) == Some(next)
    ensures Sourced(world, requests, next)
  {
    hide LockInv, Covered, UnitOk, HandlerOk, AskedResult, Asked;
    var Waiting(uid, jid, input) := s.handlers[h];
    assert Serves(world, s, requests, requests[h], s.handlers[h]);
    assert UnitAsked(world, requests, s.units[uid], requests[h].cid);
    forall k | 0 <= k < |requests|
      ensures Serves(world, next, requests, requests[k], next.handlers[k])
    {
      assert Serves(world, s, requests, requests[k], s.handlers[k]);
    }
    forall id | 0 <= id < |next.commands| && next.commands[id].Some?
      ensures UnitAsked(world, requests, next.units[next.commands[id].value], id)
    {
      assert UnitAsked(world, requests, s.units[s.commands[id].value], id);
    }
  }

  lemma EmptyIsAsked(world: World, requests: seq<Codec.JobEvent>, unit: Unit, cid: nat)
    requires CommandPoolLaws.Empty(unit)
    ensures UnitAsked(world, requests, unit, cid)
  {
  }

  /** Steps of the holder of the write lock; nothing waits and every command is idle. */
  lemma WriteKeepsSourced(world: World, requests: seq<Codec.JobEvent>, s: State, h: nat, next: State)
    requires Inv(world, s) && Sourced(world, requests, s)
    requires h < |s.handlers| && HoldsWrite()(s.handlers[h]) == 1 && ActStep(s, h) == Some(next)
    ensures Sourced(world, requests, next)
  {
    hide Covered, UnitOk, HandlerOk, AskedResult, Asked, Sum, CommandTable.FirstFree, UnitAsked, CommandPoolLaws.Empty;
    assert s.writing by { SumAt(s.handlers, h, HoldsWrite()); }
    NoReaders(s);
    forall k | 0 <= k < |requests|
      ensures Serves(world, next, requests, requests[k], next.handlers[k])
    {
      assert Serves(world, s, requests, requests[k], s.handlers[k]);
      assert HoldsRead()(s.handlers[k]) == 0;
    }
    forall id | 0 <= id < |next.commands| && next.commands[id].Some? && next.commands[id].value < |next.units|
      ensures UnitAsked(world, requests, next.units[next.commands[id].value], id)
    {
      var uid := next.commands[id].value;
      CommandPoolLaws.WriterFindsEmpty(world, s, uid);
      StillEmpty(s.units[uid], next.units[uid]);
      EmptyIsAsked(world, requests, next.units[uid], id);
    }
  }

  lemma StillEmpty(unit: Unit, next: Unit)
    requires CommandPoolLaws.Empty(unit) && next == unit.(kill := next.kill, listed := next.listed)
    ensures CommandPoolLaws.Empty(next)
  {
  }

  lemma WorkerKeepsAsked(world: World, requests: seq<Codec.JobEvent>, unit: Unit, e: Event, next: Unit, cid: nat)
    requires |unit.workers| == world.cores && UnitAsked(world, requests, unit, cid)
    requires !e.Arrive? && !e.Acquire? && !e.Act? && !e.Release?
    requires WorkerStep(world, unit, e) == Some(next)
    ensures UnitAsked(world, requests, next, cid) && next.template == unit.template
  {
    hide Asked, Tokenizer.Expand, Tokenizer.Tokenise, Tokenizer.CommandLine;
    if e.Finish? {
      var job := unit.workers[e.w].job;
      TemplateLaws.ExpandTokenised(unit.template, e.w, job.jid, job.input);
      assert Allowed(world, unit.template, job.jid, job.input, e.result);
      assert Asked(requests, cid, job.jid, job.input);
    }
  }

  lemma WorkerKeepsSourced(world: World, requests: seq<Codec.JobEvent>, s: State, e: Event, next: State)
    requires Inv(world, s) && Sourced(world, requests, s)
    requires !e.Arrive? && !e.Acquire? && !e.Act? && !e.Release? && Step(world, s, e) == Some(next)
    ensures Sourced(world, requests, next)
  {
    hide WorkerStep, UnitAsked, LockInv, Covered, HandlerOk, AskedResult, Asked, Sum;
    assert UnitOk(world, s.units[e.uid]);
    assert next.units[e.uid].template == s.units[e.uid].template by {
      WorkerKeepsUnit(world, s.units[e.uid], e, next.units[e.uid]);
    }
    forall k | 0 <= k < |requests|
      ensures Serves(world, next, requests, requests[k], next.handlers[k])
    {
      assert Serves(world, s, requests, requests[k], s.handlers[k]);
    }
    forall id | 0 <= id < |next.commands| && next.commands[id].Some?
      ensures UnitAsked(world, requests, next.units[next.commands[id].value], id)
    {
      assert UnitAsked(world, requests, s.units[s.commands[id].value], id);
      if s.commands[id].value == e.uid {
        WorkerKeepsAsked(world, requests, s.units[e.uid], e, next.units[e.uid], id);
      }
    }
  }

  lemma StepKeepsSourced(world: World, requests: seq<Codec.JobEvent>, s: State, e: Event, next: State)
    requires Inv(world, s) && Sourced(world, requests, s) && Step(world, s, e) == Some(next)
    ensures Sourced(world, if e.Arrive? then requests + [e.request] else requests, next)
  {
    hide Inv, Sourced, WorkerStep, ArriveStep, CommandTable.Place, CommandTable.Clear, AskedResult, Asked;
    assert |s.handlers| == |requests| by { OneEach(world, requests, s); }
    match e
    case Arrive(request) => ArriveKeepsSourced(world, requests, s, request);
    case Acquire(h) => MoveKeepsSourced(world, requests, s, next, h);
    case Act(h) =>
      if s.handlers[h].Looking? {
        LookKeepsSourced(world, requests, s, h, next);
      } else if s.handlers[h].Waiting? {
        AnswerKeepsSourced(world, requests, s, h, next);
      } else {
        WriteKeepsSourced(world, requests, s, h, next);
      }
    case Release(h) => MoveKeepsSourced(world, requests, s, next, h);
    case _ => WorkerKeepsSourced(world, requests, s, e, next);
  }

  lemma OneEach(world: World, requests: seq<Codec.JobEvent>, s: State)
    requires Sourced(world, requests, s)
    ensures |s.handlers| == |requests|
  {
  }

  // ---------- The size of the table ----------

  function Commands(requests: seq<Codec.JobEvent>): nat {
    if requests == [] then 0
    else Commands(requests[..|requests| - 1]) + if requests[|requests| - 1].Command? then 1 else 0
  }

  function IsListed(): Unit -> nat {
    (unit: Unit) => if unit.listed then 1 else 0
  }

  /** Every position in the table was made for a command that has arrived. */
  ghost predicate Fits(requests: seq<Codec.JobEvent>, s: State) {
    |s.commands| <= Sum(s.units, IsListed()) && |s.units| == Commands(requests)
  }

  lemma {:induction false} ListedStay(units: seq<Unit>, next: seq<Unit>)
    requires |units| == |next| && forall u | 0 <= u < |units| :: units[u].listed ==> next[u].listed
    ensures Sum(units, IsListed()) <= Sum(next, IsListed())
  {
    if units != [] {
      ListedStay(units[..|units| - 1], next[..|next| - 1]);
    }
  }

  lemma PlaceFits(s: State, h: nat, next: State)
    requires h < |s.handlers| && s.handlers[h].Placing? && HandlerOk(s, s.handlers[h]) && ActStep(s, h) == Some(next)
    requires |s.commands| <= Sum(s.units, IsListed())
    ensures |next.commands| <= Sum(next.units, IsListed())
  {
    hide Sum, CommandTable.FirstFree;
    var uid := s.handlers[h].uid;
    SumUpdate(s.units, uid, next.units[uid], IsListed());
  }

  lemma ArriveFits(world: World, requests: seq<Codec.JobEvent>, s: State, request: Codec.JobEvent)
    requires Fits(requests, s)
    ensures Fits(requests + [request], ArriveStep(world, s, request))
  {
    hide Sum;
    assert (requests + [request])[..|requests|] == requests;
    if request.Command? {
      SumPush(s.units, ArriveStep(world, s, request).units[|s.units|], IsListed());
    }
  }

  lemma StepFits(world: World, requests: seq<Codec.JobEvent>, s: State, e: Event, next: State)
    requires Inv(world, s) && Fits(requests, s) && Step(world, s, e) == Some(next)
    ensures Fits(if e.Arrive? then requests + [e.request] else requests, next)
  {
    hide Sum, Commands, CommandTable.Place, LockInv, Covered, TableInv, ArriveStep, UnitOk, HandlerOk;
    if e.Arrive? {
      ArriveFits(world, requests, s, e.request);
    } else if e.Act? && s.handlers[e.h].Placing? {
      assert HandlerOk(s, s.handlers[e.h]);
      PlaceFits(s, e.h, next);
    } else {
      ListedStay(s.units, next.units);
    }
  }

  // ---------- Runs ----------

  lemma {:induction false} RunKeepsSourced(world: World, es: seq<Event>, s: State)
    requires Run(world, INIT, es) == Some(s)
    ensures Inv(world, s) && Sourced(world, Requests(es), s) && Fits(Requests(es), s)
    decreases |es|
  {
    hide Inv, Step, Sourced, Fits;
    if es == [] {
      InitInv(world);
      InitSourced(world);
    } else {
      var before, e := es[..|es| - 1], es[|es| - 1];
      var mid := RunFront(world, INIT, es);
      RunKeepsSourced(world, before, mid);
      StepKeepsInv(world, mid, e, s);
      StepKeepsSourced(world, Requests(before), mid, e, s);
      StepFits(world, Requests(before), mid, e, s);
      assert Requests(before) + [] == Requests(before);
    }
  }

  lemma InitSourced(world: World)
    ensures Sourced(world, [], INIT) && Fits([], INIT)
  {
  }

  lemma {:induction false} RunFront(world: World, s: State, es: seq<Event>) returns (mid: State)
    requires es != [] && Run(world, s, es).Some?
    ensures Run(world, s, es[..|es| - 1]) == Some(mid)
    ensures Step(world, mid, es[|es| - 1]) == Run(world, s, es)
    decreases |es|
  {
    hide Step;
    if |es| == 1 {
      mid := s;
      assert es[1..] == [];
      assert forall t :: Run(world, t, []) == Some(t);
    } else {
      mid := RunFront(world, Step(world, s, es[0]).value, es[1..]);
      assert es[1..][..|es| - 2] == es[..|es| - 1][1..];
    }
  }

  lemma ReachedIsSourced(world: World, requests: seq<Codec.JobEvent>, s: State)
    requires Reaches(world, requests, s)
    ensures Inv(world, s) && Sourced(world, requests, s) && Fits(requests, s)
  {
    hide Inv, Sourced, Fits, Run;
    var es :| Run(world, INIT, es) == Some(s) && Requests(es) == requests;
    RunKeepsSourced(world, es, s);
  }

  /** Whatever arrives, a reply carries the result of some input that was asked for under the same
      command id and job id. */
  lemma ReplyIsForItsIds(world: World, requests: seq<Codec.JobEvent>, s: State, h: nat)
    requires Reaches(world, requests, s) && h < |s.handlers| && s.handlers[h].Replied?
    ensures |s.handlers| == |requests|
    ensures var Replied(uid, jid, input, result) := s.handlers[h];
            && requests[h].Input? && Asks(requests[h], requests[h].cid, jid, input)
            && requests[h].cid < Commands(requests)
            && uid < |s.units| && Codec.Command(s.units[uid].template) in requests
            && AskedResult(world, requests, s.units[uid].template, requests[h].cid, jid, result)
  {
    hide Inv, AskedResult, UnitAsked, Fits, Commands;
    ReachedIsSourced(world, requests, s);
    TableFits(requests, s);
    assert Serves(world, s, requests, requests[h], s.handlers[h]);
  }

  lemma TableFits(requests: seq<Codec.JobEvent>, s: State)
    requires Fits(requests, s)
    ensures |s.commands| <= Commands(requests)
  {
    SumBound(s.units, IsListed(), 1);
  }

  lemma {:induction false} CommandsGrow(requests: seq<Codec.JobEvent>, more: seq<Codec.JobEvent>)
    ensures Commands(requests) <= Commands(requests + more)
    decreases |more|
  {
    if more == [] {
      assert requests + more == requests;
    } else {
      assert (requests + more)[..|requests + more| - 1] == requests + more[..|more| - 1];
      CommandsGrow(requests, more[..|more| - 1]);
    }
  }
}
