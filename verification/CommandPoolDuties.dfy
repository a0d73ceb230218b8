/** What each handler does belongs to its own request: which command is deleted, which id is
    answered, and that every request can be served. */
module CommandPoolDuties {
  import opened Wrappers
  import opened Sums
  import opened Jobs
  import opened CommandPool
  import opened CommandPoolInvariant
  import opened CommandPoolLaws
  import opened CommandPoolRequests
  import CommandPoolAnswers
  import CommandTable
  import Codec

  // ---------- Whose request it is ----------

  predicate NoEntry(s: State, id: nat) {
    id < |s.commands| ==> s.commands[id].None?
  }

  predicate HasTemplate(s: State, uid: nat, template: string) {
    uid < |s.units| && s.units[uid].template == template
  }

  /** Handler `h` is at work on this request, and what it has done so far is what was asked. */
  predicate Minds(world: World, s: State, request: Codec.JobEvent, h: Handler) {
    match h
    case WantsRead(cid, jid, input) => Asks(request, cid, jid, input)
    case Looking(cid, jid, input) => Asks(request, cid, jid, input)
    case Waiting(_, jid, input) => request.Input? && Asks(request, request.cid, jid, input)
    case Answering(_, jid, input, _) => request.Input? && Asks(request, request.cid, jid, input)
    case Replied(_, jid, input, _) => request.Input? && Asks(request, request.cid, jid, input)
    case NotFound(jid, input) => request.Input? && Asks(request, request.cid, jid, input) && NoEntry(s, request.cid)
    case WantsStop(id) => request.StopJob? && request.id == id
    case Stopping(id) => request.StopJob? && request.id == id
    case Draining(id, _) => request.StopJob? && request.id == id
    case Stopped(id) => request.StopJob? && request.id == id && NoEntry(s, id)
    case WantsPlace(uid) => request.Command? && HasTemplate(s, uid, request.command)
    case Placing(uid) => request.Command? && HasTemplate(s, uid, request.command)
    case Placed(id) =>
      request.Command? && id < |s.commands| && s.commands[id].Some? && HasTemplate(s, s.commands[id].value, request.command)
    case WantsList => request.GetCommands?
    case Listing => request.GetCommands?
    case Closed(CommandId(id)) => request.Command? && id < |s.commands|
    case Closed(NoSuchCommand(jid, input)) => request.Input? && Asks(request, request.cid, jid, input)
    case Closed(Deleted) => request.StopJob?
    case Closed(CommandList) => request.GetCommands?
    case Closed(Cores(n)) => request.GetCores? && n == world.cores
  }

  predicate AllMind(world: World, requests: seq<Codec.JobEvent>, s: State) {
    && |s.handlers| == |requests|
    && forall h | 0 <= h < |requests| :: Minds(world, s, requests[h], s.handlers[h])
  }

  lemma ArriveKeepsMind(world: World, requests: seq<Codec.JobEvent>, s: State, request: Codec.JobEvent)
    requires AllMind(world, requests, s)
    ensures AllMind(world, requests + [request], ArriveStep(world, s, request))
  {
    var next, all := ArriveStep(world, s, request), requests + [request];
    forall h | 0 <= h < |all|
      ensures Minds(world, next, all[h], next.handlers[h])
    {
      if h < |requests| {
        assert Minds(world, s, requests[h], s.handlers[h]);
      }
    }
  }

  /** A step that keeps the table and the templates, of handler `h` if of any. */
  lemma OthersKeepMind(world: World, requests: seq<Codec.JobEvent>, s: State, h: nat, next: State)
    requires AllMind(world, requests, s) && next.commands == s.commands && |next.units| == |s.units|
    requires forall u | 0 <= u < |s.units| :: next.units[u].template == s.units[u].template
    requires |next.handlers| == |s.handlers|
    requires forall k | 0 <= k < |s.handlers| && k != h :: next.handlers[k] == s.handlers[k]
    requires h < |s.handlers| && Minds(world, s, requests[h], s.handlers[h]) ==>
               Minds(world, next, requests[h], next.handlers[h])
    ensures AllMind(world, requests, next)
  {
    forall k | 0 <= k < |requests| && k != h
      ensures Minds(world, next, requests[k], next.handlers[k])
    {
      assert Minds(world, s, requests[k], s.handlers[k]);
    }
  }

  /** The holder of the write lock changes the table; no other handler has looked at it. */
  lemma WriterKeepsMind(world: World, requests: seq<Codec.JobEvent>, s: State, h: nat, next: State)
    requires Inv(world, s) && AllMind(world, requests, s) && h < |s.handlers| && HoldsWrite()(s.handlers[h]) == 1
    requires ActStep(s, h) == Some(next)
    ensures AllMind(world, requests, next)
  {
    hide Sum, Covered, UnitOk, CommandTable.FirstFree;
    assert LockInv(s) && HandlerOk(s, s.handlers[h]);
    assert s.writing by { SumAt(s.handlers, h, HoldsWrite()); }
    NoReaders(s);
    assert Minds(world, s, requests[h], s.handlers[h]);
    forall k | 0 <= k < |requests| && k != h
      ensures Minds(world, next, requests[k], next.handlers[k])
    {
      assert Minds(world, s, requests[k], s.handlers[k]);
      assert HoldsRead()(s.handlers[k]) == 0;
      OneWriter(s, h, k);
    }
    assert Minds(world, next, requests[h], next.handlers[h]);
  }

  lemma WorkerKeepsMind(world: World, requests: seq<Codec.JobEvent>, s: State, e: Event, next: State)
    requires Inv(world, s) && AllMind(world, requests, s)
    requires !e.Arrive? && !e.Acquire? && !e.Act? && !e.Release? && Step(world, s, e) == Some(next)
    ensures AllMind(world, requests, next)
  {
    hide WorkerStep, AllMind, Minds, LockInv, Covered, TableInv, HandlerOk;
    WorkerKeepsUnit(world, s.units[e.uid], e, next.units[e.uid]);
    OthersKeepMind(world, requests, s, |s.handlers|, next);
  }

  lemma ReaderActs(world: World, requests: seq<Codec.JobEvent>, s: State, h: nat, next: State)
    requires TableInv(s) && AllMind(world, requests, s)
    requires h < |s.handlers| && (s.handlers[h].Looking? || s.handlers[h].Waiting?)
    requires ActStep(s, h) == Some(next)
    ensures AllMind(world, requests, next)
  {
    hide AllMind;
    assert |s.handlers| == |requests| by { OneHandlerEach(world, requests, s); }
    OthersKeepMind(world, requests, s, h, next);
  }

  lemma OneHandlerEach(world: World, requests: seq<Codec.JobEvent>, s: State)
    requires AllMind(world, requests, s)
    ensures |s.handlers| == |requests|
  {
  }

  lemma LockKeepsMind(world: World, requests: seq<Codec.JobEvent>, s: State, h: nat, next: State)
    requires AllMind(world, requests, s) && h < |s.handlers|
    requires AcquireStep(s, h) == Some(next) || ReleaseStep(s, h) == Some(next)
    ensures AllMind(world, requests, next)
  {
    hide AllMind;
    OneHandlerEach(world, requests, s);
    OthersKeepMind(world, requests, s, h, next);
  }

  lemma StepKeepsMind(world: World, requests: seq<Codec.JobEvent>, s: State, e: Event, next: State)
    requires Inv(world, s) && AllMind(world, requests, s) && Step(world, s, e) == Some(next)
    ensures AllMind(world, if e.Arrive? then requests + [e.request] else requests, next)
  {
    hide Inv, AllMind, WorkerStep, ArriveStep, AcquireStep, ReleaseStep, LockInv, Covered, UnitOk, HandlerOk, CommandTable.Place, CommandTable.Clear;
    InvLock(world, s);
    assert |s.handlers| == |requests| by { OneHandlerEach(world, requests, s); }
    match e
    case Arrive(request) => ArriveKeepsMind(world, requests, s, request);
    case Acquire(h) => LockKeepsMind(world, requests, s, h, next);
    case Act(h) =>
      if s.handlers[h].Looking? || s.handlers[h].Waiting? {
        ReaderActs(world, requests, s, h, next);
      } else {
        WriterKeepsMind(world, requests, s, h, next);
      }
    case Release(h) => LockKeepsMind(world, requests, s, h, next);
    case _ => WorkerKeepsMind(world, requests, s, e, next);
  }

  lemma {:induction false} RunKeepsMind(world: World, es: seq<Event>, s: State)
    requires Run(world, INIT, es) == Some(s)
    ensures Inv(world, s) && AllMind(world, Requests(es), s)
    decreases |es|
  {
    hide Inv, Step, AllMind;
    if es == [] {
      InitInv(world);
      assert AllMind(world, [], INIT) by { NobodyMinds(world); }
    } else {
      var before, e := es[..|es| - 1], es[|es| - 1];
      var mid := RunFront(world, INIT, es);
      RunKeepsMind(world, before, mid);
      StepKeepsInv(world, mid, e, s);
      StepKeepsMind(world, Requests(before), mid, e, s);
      assert Requests(before) + [] == Requests(before);
    }
  }

  lemma NobodyMinds(world: World)
    ensures AllMind(world, [], INIT)
  {
  }

  /** In every state that some interleaving of given requests leads to, each handler is at work on
      its own request: no id, text or kind of request is mistaken for another. */
  lemma HandlersMindTheirRequests(world: World, requests: seq<Codec.JobEvent>, s: State, h: nat)
    requires Reaches(world, requests, s) && h < |s.handlers|
    ensures |s.handlers| == |requests| && Minds(world, s, requests[h], s.handlers[h])
  {
    hide Inv, Run, Minds;
    var es :| Run(world, INIT, es) == Some(s) && Requests(es) == requests;
    RunKeepsMind(world, es, s);
  }

  /** A command is deleted, and its workers told to stop, only by the handler of a request that names
      the command's id. */
  lemma OnlyTheNamedIsDeleted(world: World, requests: seq<Codec.JobEvent>, s: State, e: Event, next: State, id: nat)
    requires Reaches(world, requests, s) && Step(world, s, e) == Some(next)
    requires id < |s.commands| && s.commands[id].Some?
    ensures var uid := s.commands[id].value;
            && id < |next.commands| && uid < |s.units| && uid < |next.units|
            && (next.commands[id] != s.commands[id] || next.units[uid].kill != s.units[uid].kill ==>
                  e.Act? && e.h < |requests| && requests[e.h].StopJob? && requests[e.h].id == id)
            && (next.commands[id] != s.commands[id] ==> next.commands[id] == None)
  {
    hide Inv, Reaches, Sourced, Fits, WorkerStep, AcquireStep, ReleaseStep, LockInv, Covered, UnitOk, Empty,
      CommandTable.Place, CommandTable.Clear;
    ReachedIsSourced(world, requests, s);
    InvLock(world, s);
    EntryResetOnlyWhenIdle(world, s, e, next, id);
    var uid := s.commands[id].value;
    if e.Act? {
      HandlersMindTheirRequests(world, requests, s, e.h);
    } else if e.Acquire? || e.Release? {
      LockKeepsUnits(world, s, e, next);
    } else if !e.Arrive? {
      WorkerKeepsUnit(world, s.units[e.uid], e, next.units[e.uid]);
    }
  }

  lemma LockKeepsUnits(world: World, s: State, e: Event, next: State)
    requires Step(world, s, e) == Some(next) && (e.Acquire? || e.Release?)
    ensures next.units == s.units
  {
  }

  // ---------- Every request can be served ----------

  predicate Wants(h: Handler) {
    h.WantsRead? || h.WantsStop? || h.WantsPlace? || h.WantsList?
  }

  /** The request has been served: an input has a reply, or there is no such command; a deleted id is
      free; a new command is in the table under the id that was answered. */
  predicate Served(world: World, s: State, request: Codec.JobEvent, h: Handler) {
    match request
    case Input(cid, jid, input) =>
      if h.Replied? then h.jid == jid && h.input == input
      else h == Closed(NoSuchCommand(jid, input)) && NoEntry(s, cid)
    case StopJob(id) => h == Closed(Deleted) && NoEntry(s, id)
    case Command(command) =>
      && h.Closed? && h.answer.CommandId? && h.answer.id < |s.commands| && s.commands[h.answer.id].Some?
      && HasTemplate(s, s.commands[h.answer.id].value, command)
    case GetCommands => h == Closed(CommandList)
    case GetCores => h == Closed(Cores(world.cores))
  }

  lemma ReachesAct(world: World, requests: seq<Codec.JobEvent>, s: State, e: Event) returns (next: State)
    requires Reaches(world, requests, s) && !e.Arrive? && Step(world, s, e).Some?
    ensures Step(world, s, e) == Some(next) && Reaches(world, requests, next)
  {
    hide Step, Reaches;
    next := Step(world, s, e).value;
    ReachesStep(world, requests, s, e, next);
  }

  /** The workers of a command that is being drained can all be brought to park. */
  lemma {:induction false} ParkAll(world: World, requests: seq<Codec.JobEvent>, s: State, h: nat) returns (t: State)
    requires Reaches(world, requests, s) && h < |s.handlers| && s.handlers[h].Draining?
    requires s.handlers[h].uid < |s.units|
    ensures Reaches(world, requests, t) && |t.handlers| == |s.handlers| && t.handlers[h] == s.handlers[h]
    ensures s.handlers[h].uid < |t.units|
    ensures t.units[s.handlers[h].uid].parked == |t.units[s.handlers[h].uid].workers|
    decreases StopWork(s.units[s.handlers[h].uid])
  {
    hide Reaches, Inv, Step, Sum, StopWork, Sourced, Fits;
    var uid := s.handlers[h].uid;
    ReachedIsSourced(world, requests, s);
    InvLock(world, s);
    var unit := s.units[uid];
    AllParked(world, unit);
    if unit.parked == |unit.workers| {
      t := s;
    } else {
      var w :| 0 <= w < |unit.workers| && !unit.workers[w].Parked?;
      var e := WorkerCanStep(world, s, uid, w);
      var next := ReachesAct(world, requests, s, e);
      HandshakeStep(world, s, h, e, next);
      ReachedIsSourced(world, requests, next);
      SameHandlers(world, requests, s, next);
      t := ParkAll(world, requests, next, h);
    }
  }

  lemma SameHandlers(world: World, requests: seq<Codec.JobEvent>, s: State, t: State)
    requires Reaches(world, requests, s) && Reaches(world, requests, t)
    ensures |s.handlers| == |t.handlers| == |requests|
  {
    hide Reaches, Inv, Fits;
    ReachedIsSourced(world, requests, s);
    ReachedIsSourced(world, requests, t);
  }

  lemma StopCanBeServed(world: World, requests: seq<Codec.JobEvent>, s: State, h: nat) returns (t: State)
    requires Reaches(world, requests, s) && !s.writing && s.readers == 0 && h < |s.handlers| && s.handlers[h].WantsStop?
    ensures Reaches(world, requests, t) && h < |t.handlers| && t.handlers[h] == Closed(Deleted) && NoEntry(t, s.handlers[h].id)
  {
    hide Reaches, CommandTable.Place;
    var id := s.handlers[h].id;
    var s1 := ReachesAct(world, requests, s, Acquire(h));
    var s2 := ReachesAct(world, requests, s1, Act(h));
    var s3 := s2;
    if s2.handlers[h].Draining? {
      var parked := ParkAll(world, requests, s2, h);
      s3 := ReachesAct(world, requests, parked, Act(h));
      assert s3.handlers[h] == Stopped(id);
    } else {
      assert s2.handlers[h] == Stopped(id) by { TableInRange(world, requests, s1); }
    }
    HandlersMindTheirRequests(world, requests, s3, h);
    t := ReachesAct(world, requests, s3, Release(h));
  }

  lemma TableInRange(world: World, requests: seq<Codec.JobEvent>, s: State)
    requires Reaches(world, requests, s)
    ensures forall id | 0 <= id < |s.commands| && s.commands[id].Some? :: s.commands[id].value < |s.units|
  {
    hide Reaches, Sourced, Fits, LockInv, Covered, UnitOk, HandlerOk;
    ReachedIsSourced(world, requests, s);
  }

  lemma CommandCanBeServed(world: World, requests: seq<Codec.JobEvent>, s: State, h: nat) returns (t: State)
    requires Reaches(world, requests, s) && !s.writing && s.readers == 0 && h < |s.handlers| == |requests|
    requires s.handlers[h].WantsPlace? && requests[h].Command?
    ensures Reaches(world, requests, t) && h < |t.handlers| && Served(world, t, requests[h], t.handlers[h])
  {
    hide Reaches, CommandTable.FirstFree;
    HandlersMindTheirRequests(world, requests, s, h);
    var s1 := ReachesAct(world, requests, s, Acquire(h));
    var s2 := ReachesAct(world, requests, s1, Act(h));
    HandlersMindTheirRequests(world, requests, s2, h);
    t := ReachesAct(world, requests, s2, Release(h));
  }

  lemma {:induction false} WorkersReach(world: World, requests: seq<Codec.JobEvent>, s: State, uid: nat,
                                        run: string -> RunResult, es: seq<Event>, last: State)
    requires Reaches(world, requests, s) && CommandPoolAnswers.WorkersRun(world, s, uid, run, es, last)
    ensures Reaches(world, requests, last)
    decreases |es|
  {
    hide Reaches, Step, CommandPoolAnswers.LineOf;
    if es != [] {
      var next := ReachesAct(world, requests, s, es[0]);
      WorkersReach(world, requests, next, uid, run, es[1..], last);
    }
  }

  lemma InputCanBeServed(world: World, requests: seq<Codec.JobEvent>, s: State, h: nat, run: string -> RunResult)
    returns (t: State)
    requires Reaches(world, requests, s) && !s.writing && s.readers == 0 && h < |s.handlers| == |requests|
    requires s.handlers[h].WantsRead? && requests[h].Input? && CommandPoolAnswers.Honest(world, run) && world.cores > 0
    ensures Reaches(world, requests, t) && h < |t.handlers| && Served(world, t, requests[h], t.handlers[h])
    ensures NoEntry(s, requests[h].cid) <==> !t.handlers[h].Replied?
  {
    hide Reaches, Sum, CommandPoolAnswers.Honest, CommandPoolAnswers.WorkersRun, WorkerStep, Inv, Sourced, Fits;
    HandlersMindTheirRequests(world, requests, s, h);
    TableInRange(world, requests, s);
    var s1 := ReachesAct(world, requests, s, Acquire(h));
    var s2 := ReachesAct(world, requests, s1, Act(h));
    HandlersMindTheirRequests(world, requests, s2, h);
    if s2.handlers[h].NotFound? {
      t := ReachesAct(world, requests, s2, Release(h));
    } else {
      var Waiting(uid, jid, input) := s2.handlers[h];
      ReachedIsSourced(world, requests, s2);
      PushedIsThere(s2.units[uid], jid);
      var es, last := CommandPoolAnswers.CanBeAnswered(world, s2, h, run);
      WorkersReach(world, requests, s2, uid, run, es, last);
      SameHandlers(world, requests, s2, last);
      CommandPoolAnswers.WorkersLeaveHandlers(world, s2, uid, run, es, last);
      var s3 := ReachesAct(world, requests, last, Act(h));
      HandlersMindTheirRequests(world, requests, s3, h);
      assert s3.readers > 0 by { AnsweringReads(world, requests, s3, h); }
      t := ReachesAct(world, requests, s3, Release(h));
    }
  }

  lemma PushedIsThere(unit: Unit, jid: nat)
    requires unit.stack != [] && unit.stack[|unit.stack| - 1].jid == jid
    ensures Places(unit, jid) > 0
  {
  }

  lemma AnsweringReads(world: World, requests: seq<Codec.JobEvent>, s: State, h: nat)
    requires Reaches(world, requests, s) && h < |s.handlers| && s.handlers[h].Answering?
    ensures s.readers > 0
  {
    hide Reaches, Sum, Sourced, Fits, Covered, TableInv;
    ReachedIsSourced(world, requests, s);
    SumAt(s.handlers, h, HoldsRead());
  }

  lemma OneCanBeServed(world: World, requests: seq<Codec.JobEvent>, s: State, h: nat, run: string -> RunResult)
    returns (t: State)
    requires Reaches(world, requests, s) && !s.writing && s.readers == 0 && h < |s.handlers| == |requests|
    requires Wants(s.handlers[h]) && CommandPoolAnswers.Honest(world, run) && world.cores > 0
    ensures Reaches(world, requests, t) && h < |t.handlers| && Served(world, t, requests[h], t.handlers[h])
  {
    hide Reaches, CommandPoolAnswers.Honest;
    HandlersMindTheirRequests(world, requests, s, h);
    match s.handlers[h]
    case WantsRead(_, _, _) => t := InputCanBeServed(world, requests, s, h, run);
    case WantsStop(_) => t := StopCanBeServed(world, requests, s, h);
    case WantsPlace(_) => t := CommandCanBeServed(world, requests, s, h);
    case WantsList =>
      var s1 := ReachesAct(world, requests, s, Acquire(h));
      t := ReachesAct(world, requests, s1, Release(h));
  }

  /** Whenever the lock is free, any request that waits for it can be served, with no other request's
      help: it gets its own answer. */
  lemma EveryRequestCanBeServed(world: World, requests: seq<Codec.JobEvent>, s: State, h: nat, run: string -> RunResult)
    requires Reaches(world, requests, s) && !s.writing && s.readers == 0 && h < |s.handlers| && Wants(s.handlers[h])
    requires CommandPoolAnswers.Honest(world, run) && world.cores > 0
    ensures exists t :: Reaches(world, requests, t) && h < |t.handlers| == |requests| && Served(world, t, requests[h], t.handlers[h])
  {
    hide Reaches, Served, CommandPoolAnswers.Honest;
    HandlersMindTheirRequests(world, requests, s, h);
    var t := OneCanBeServed(world, requests, s, h, run);
    SameHandlers(world, requests, s, t);
  }
}
