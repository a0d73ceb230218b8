/** Runs of the server built for given requests: a command is placed at a chosen id, and two
    requests with the same ids are made to wait for it together. */
module CommandPoolScenarios {
  import opened Wrappers
  import opened Sums
  import opened Jobs
  import opened CommandPool
  import opened CommandPoolRequests
  import CommandTable
  import TemplateLaws
  import Tokenizer
  import Codec

  // ---------- Placing commands ----------

  /** A command in the table, and idle. */
  function Fresh(world: World, template: string): Unit {
    Unit(template, [], seq(world.cores, _ => Testing), map[], false, 0, true)
  }

  function WantsToPlace(): Handler -> nat {
    (h: Handler) => if h.WantsPlace? then 1 else 0
  }

  /** All requests have arrived, and of their handlers only those of some commands have moved. */
  ghost predicate Queued(world: World, requests: seq<Codec.JobEvent>, s: State) {
    && !s.writing && s.readers == 0 && |s.handlers| == |requests|
    && (forall h | 0 <= h < |requests| && requests[h].Input? ::
          s.handlers[h] == WantsRead(requests[h].cid, requests[h].jid, requests[h].input))
    && (forall h | 0 <= h < |requests| && s.handlers[h].WantsPlace? ::
          requests[h].Command? && s.handlers[h].uid < |s.units|
          && s.units[s.handlers[h].uid].template == requests[h].command)
    && (forall u | 0 <= u < |s.units| ::
          s.units[u] == Fresh(world, s.units[u].template).(listed := s.units[u].listed))
    && (forall id | 0 <= id < |s.commands| :: s.commands[id].Some?)
    && Sum(s.handlers, WantsToPlace()) + |s.commands| == Commands(requests)
  }

  lemma ArriveKeepsQueued(world: World, requests: seq<Codec.JobEvent>, s: State, request: Codec.JobEvent)
    requires Queued(world, requests, s)
    ensures Queued(world, requests + [request], ArriveStep(world, s, request))
    ensures var next := ArriveStep(world, s, request);
            && next.handlers[..|requests|] == s.handlers && next.commands == s.commands
            && (request.Command? ==> next.handlers[|requests|].WantsPlace?)
  {
    hide Sum;
    var next, all := ArriveStep(world, s, request), requests + [request];
    assert all[..|requests|] == requests;
    SumPush(s.handlers, next.handlers[|requests|], WantsToPlace());
    assert forall h | 0 <= h < |requests| :: next.handlers[h] == s.handlers[h] && all[h] == requests[h];
  }

  lemma {:induction false} ArriveAll(world: World, requests: seq<Codec.JobEvent>) returns (s: State)
    ensures Reaches(world, requests, s) && Queued(world, requests, s) && s.commands == []
    ensures |s.handlers| == |requests|
    ensures forall h | 0 <= h < |requests| && requests[h].Command? :: s.handlers[h].WantsPlace?
    decreases |requests|
  {
    hide Reaches, Queued, ArriveStep;
    if requests == [] {
      s := INIT;
      ReachesInit(world);
      assert Queued(world, [], INIT) by { NothingQueued(world); }
    } else {
      var last := |requests| - 1;
      var before := ArriveAll(world, requests[..last]);
      var request := requests[last];
      s := ArriveStep(world, before, request);
      assert requests[..last] + [request] == requests;
      ReachesStep(world, requests[..last], before, Arrive(request), s);
      ArriveKeepsQueued(world, requests[..last], before, request);
      assert |s.handlers| == |requests| by { OneHandlerEach(world, requests, s); }
      assert forall h | 0 <= h < last :: s.handlers[h] == s.handlers[..last][h] && requests[h] == requests[..last][h];
    }
  }

  lemma NothingQueued(world: World)
    ensures Queued(world, [], INIT)
  {
  }

  lemma OneHandlerEach(world: World, requests: seq<Codec.JobEvent>, s: State)
    requires Queued(world, requests, s)
    ensures |s.handlers| == |requests|
  {
  }

  lemma PlaceOne(world: World, requests: seq<Codec.JobEvent>, s: State, h: nat) returns (next: State)
    requires Reaches(world, requests, s) && Queued(world, requests, s)
    requires h < |s.handlers| && s.handlers[h].WantsPlace?
    ensures Reaches(world, requests, next) && Queued(world, requests, next)
    ensures var uid := s.handlers[h].uid;
            && uid < |s.units| && next.commands == s.commands + [Some(uid)]
            && next.units == s.units[uid := s.units[uid].(listed := true)]
            && next.handlers == s.handlers[h := Closed(CommandId(|s.commands|))]
  {
    hide Reaches, Sum, CommandTable.FirstFree;
    var uid := s.handlers[h].uid;
    var id := |s.commands|;
    CommandTable.FirstFreeUnique(s.commands, id);
    var s1 := s.(writing := true, handlers := s.handlers[h := Placing(uid)]);
    var s2 := s1.(units := s.units[uid := s.units[uid].(listed := true)], commands := s.commands + [Some(uid)],
                  handlers := s1.handlers[h := Placed(id)]);
    next := s2.(writing := false, handlers := s2.handlers[h := Closed(CommandId(id))]);
    assert Step(world, s, Acquire(h)) == Some(s1);
    assert Step(world, s1, Act(h)) == Some(s2);
    assert Step(world, s2, Release(h)) == Some(next);
    ReachesStep(world, requests, s, Acquire(h), s1);
    ReachesStep(world, requests, s1, Act(h), s2);
    ReachesStep(world, requests, s2, Release(h), next);
    assert next.handlers == s.handlers[h := Closed(CommandId(id))];
    SumUpdate(s.handlers, h, Closed(CommandId(id)), WantsToPlace());
  }

  /** Commands other than the one of handler `c` are placed until `n` positions are taken. */
  lemma {:induction false} PlaceOthers(world: World, requests: seq<Codec.JobEvent>, s: State, c: nat, n: nat)
    returns (last: State)
    requires Reaches(world, requests, s) && Queued(world, requests, s)
    requires c < |s.handlers| && s.handlers[c].WantsPlace? && |s.commands| <= n < Commands(requests)
    ensures Reaches(world, requests, last) && Queued(world, requests, last)
    ensures |last.commands| == n && |last.handlers| == |s.handlers| && last.handlers[c].WantsPlace?
    decreases n - |s.commands|
  {
    hide Reaches, Sum, Queued;
    if |s.commands| == n {
      last := s;
    } else {
      var h := AnotherPlacer(world, requests, s, c);
      var next := PlaceOne(world, requests, s, h);
      last := PlaceOthers(world, requests, next, c, n);
    }
  }

  lemma AnotherPlacer(world: World, requests: seq<Codec.JobEvent>, s: State, c: nat) returns (h: nat)
    requires Queued(world, requests, s) && c < |s.handlers| && s.handlers[c].WantsPlace?
    requires |s.commands| + 1 < Commands(requests)
    ensures h < |s.handlers| && h != c && s.handlers[h].WantsPlace?
  {
    hide Sum;
    var rest := s.handlers[c := Closed(Deleted)];
    SumUpdate(s.handlers, c, Closed(Deleted), WantsToPlace());
    SumPositive(rest, WantsToPlace());
    h :| 0 <= h < |rest| && WantsToPlace()(rest[h]) > 0;
  }

  /** The command of request `c` gets the id `cid`. */
  lemma PlaceAt(world: World, requests: seq<Codec.JobEvent>, c: nat, cid: nat) returns (s: State, uid: nat)
    requires c < |requests| && requests[c].Command? && cid < Commands(requests)
    ensures Reaches(world, requests, s) && Queued(world, requests, s)
    ensures cid < |s.commands| && s.commands[cid] == Some(uid)
    ensures uid < |s.units| && s.units[uid] == Fresh(world, requests[c].command)
  {
    hide Reaches, Sum;
    var arrived := ArriveAll(world, requests);
    var before := PlaceOthers(world, requests, arrived, c, cid);
    uid := before.handlers[c].uid;
    s := PlaceOne(world, requests, before, c);
  }

  // ---------- Requests on their way ----------

  predicate SameJob(a: Codec.JobEvent, b: Codec.JobEvent) {
    a.Input? && b.Input? && a.cid == b.cid && a.jid == b.jid
  }

  lemma Push(world: World, requests: seq<Codec.JobEvent>, s: State, h: nat) returns (next: State)
    requires Reaches(world, requests, s) && !s.writing && h < |s.handlers| && s.handlers[h].WantsRead?
    requires var WantsRead(cid, _, _) := s.handlers[h];
             cid < |s.commands| && s.commands[cid].Some? && s.commands[cid].value < |s.units|
    ensures Reaches(world, requests, next)
    ensures var WantsRead(cid, jid, input) := s.handlers[h];
            var uid := s.commands[cid].value;
            next == s.(units := s.units[uid := s.units[uid].(stack := s.units[uid].stack + [Job(jid, input)])],
                       readers := s.readers + 1, handlers := s.handlers[h := Waiting(uid, jid, input)])
  {
    hide Reaches;
    var WantsRead(cid, jid, input) := s.handlers[h];
    var uid := s.commands[cid].value;
    var unit := s.units[uid];
    var s1 := s.(readers := s.readers + 1, handlers := s.handlers[h := Looking(cid, jid, input)]);
    next := s1.(units := s.units[uid := unit.(stack := unit.stack + [Job(jid, input)])],
                handlers := s1.handlers[h := Waiting(uid, jid, input)]);
    assert Step(world, s, Acquire(h)) == Some(s1);
    assert Step(world, s1, Act(h)) == Some(next);
    ReachesStep(world, requests, s, Acquire(h), s1);
    ReachesStep(world, requests, s1, Act(h), next);
    assert next.handlers == s.handlers[h := Waiting(uid, jid, input)];
  }

  /** Worker `w` runs the newest job of its command. */
  lemma RunNewest(world: World, requests: seq<Codec.JobEvent>, s: State, uid: nat, w: nat, result: RunResult)
    returns (next: State)
    requires Reaches(world, requests, s) && uid < |s.units| && w < |s.units[uid].workers|
    requires s.units[uid].workers[w].Testing? && !s.units[uid].kill && s.units[uid].stack != []
    requires var job := s.units[uid].stack[|s.units[uid].stack| - 1];
             result.Some? ==> world.shell(Tokenizer.CommandLine(s.units[uid].template, w, job.jid, job.input), result.value)
    ensures Reaches(world, requests, next)
    ensures var unit, top := s.units[uid], |s.units[uid].stack| - 1;
            next == s.(units := s.units[uid := unit.(stack := unit.stack[..top],
                                                    outputs := unit.outputs[unit.stack[top].jid := result])])
  {
    hide Reaches, Tokenizer.Expand, Tokenizer.Tokenise, Tokenizer.CommandLine;
    var unit, top := s.units[uid], |s.units[uid].stack| - 1;
    var job := unit.stack[top];
    TemplateLaws.ExpandTokenised(unit.template, w, job.jid, job.input);
    var popping := unit.(workers := unit.workers[w := Popping]);
    var running := popping.(workers := popping.workers[w := Running(job)], stack := unit.stack[..top]);
    var done := running.(workers := running.workers[w := Testing], outputs := unit.outputs[job.jid := result]);
    assert done.workers == unit.workers;
    var s1 := s.(units := s.units[uid := popping]);
    var s2 := s1.(units := s1.units[uid := running]);
    next := s2.(units := s2.units[uid := done]);
    assert Step(world, s, TestKill(uid, w)) == Some(s1);
    assert Step(world, s1, Pop(uid, w)) == Some(s2);
    assert Step(world, s2, Finish(uid, w, result)) == Some(next);
    ReachesStep(world, requests, s, TestKill(uid, w), s1);
    ReachesStep(world, requests, s1, Pop(uid, w), s2);
    ReachesStep(world, requests, s2, Finish(uid, w, result), next);
    assert next.units == s.units[uid := done];
  }

  lemma Collect(world: World, requests: seq<Codec.JobEvent>, s: State, h: nat) returns (next: State)
    requires Reaches(world, requests, s) && h < |s.handlers| && s.handlers[h].Waiting? && s.readers > 0
    requires s.handlers[h].uid < |s.units| && s.handlers[h].jid in s.units[s.handlers[h].uid].outputs
    ensures Reaches(world, requests, next)
    ensures var Waiting(uid, jid, input) := s.handlers[h];
            var unit := s.units[uid];
            next == s.(units := s.units[uid := unit.(outputs := unit.outputs - {jid})], readers := s.readers - 1,
                       handlers := s.handlers[h := Replied(uid, jid, input, unit.outputs[jid])])
  {
    hide Reaches;
    var Waiting(uid, jid, input) := s.handlers[h];
    var unit := s.units[uid];
    var result := unit.outputs[jid];
    var s1 := s.(units := s.units[uid := unit.(outputs := unit.outputs - {jid})],
                 handlers := s.handlers[h := Answering(uid, jid, input, result)]);
    next := s1.(readers := s.readers - 1, handlers := s1.handlers[h := Replied(uid, jid, input, result)]);
    assert Step(world, s, Act(h)) == Some(s1);
    assert Step(world, s1, Release(h)) == Some(next);
    ReachesStep(world, requests, s, Act(h), s1);
    ReachesStep(world, requests, s1, Release(h), next);
    assert next.handlers == s.handlers[h := Replied(uid, jid, input, result)];
  }

  // ---------- Two requests with the same ids ----------

  /** Requests `h` and `k` wait for the same job of the command of request `c`, which has both on
      its stack and nothing else. */
  ghost predicate BothWait(world: World, requests: seq<Codec.JobEvent>, c: nat, h: nat, k: nat, s: State, uid: nat) {
    && h < |requests| == |s.handlers| && k < |requests| && h != k && SameJob(requests[h], requests[k])
    && c < |requests| && requests[c].Command? && uid < |s.units| && s.readers >= 2
    && s.handlers[h] == Waiting(uid, requests[h].jid, requests[h].input)
    && s.handlers[k] == Waiting(uid, requests[k].jid, requests[k].input)
    && s.units[uid] == Fresh(world, requests[c].command).(
         stack := [Job(requests[h].jid, requests[h].input), Job(requests[k].jid, requests[k].input)])
  }

  lemma BothCanWait(world: World, requests: seq<Codec.JobEvent>, c: nat, h: nat, k: nat) returns (s: State, uid: nat)
    requires h < |requests| && k < |requests| && h != k && SameJob(requests[h], requests[k])
    requires c < |requests| && requests[c].Command? && requests[h].cid < Commands(requests)
    ensures Reaches(world, requests, s) && BothWait(world, requests, c, h, k, s, uid)
  {
    hide Reaches, Sum;
    var s0;
    s0, uid := PlaceAt(world, requests, c, requests[h].cid);
    var s1 := Push(world, requests, s0, h);
    s := Push(world, requests, s1, k);
  }

  /** The second input is run, and the first request is answered with what it gave. */
  lemma MixUp(world: World, requests: seq<Codec.JobEvent>, c: nat, h: nat, k: nat, w: nat, captured: Captured)
    returns (s: State, uid: nat)
    requires h < |requests| && k < |requests| && h != k && SameJob(requests[h], requests[k])
    requires c < |requests| && requests[c].Command? && requests[h].cid < Commands(requests)
    requires w < world.cores
    requires world.shell(Tokenizer.CommandLine(requests[c].command, w, requests[k].jid, requests[k].input), captured)
    ensures Reaches(world, requests, s) && |s.handlers| == |requests|
    ensures uid < |s.units| && s.units[uid].template == requests[c].command
    ensures s.handlers[h] == Replied(uid, requests[h].jid, requests[h].input, Some(captured))
  {
    hide Reaches, Tokenizer.CommandLine;
    var s0;
    s0, uid := BothCanWait(world, requests, c, h, k);
    var s1 := RunNewest(world, requests, s0, uid, w, Some(captured));
    s := Collect(world, requests, s1, h);
  }

  /** Both inputs are run before either result is collected: the second result replaces the first,
      one request is answered and the other still waits, for a command that has nothing left. */
  lemma Loss(world: World, requests: seq<Codec.JobEvent>, c: nat, h: nat, k: nat) returns (s: State, uid: nat)
    requires h < |requests| && k < |requests| && h != k && SameJob(requests[h], requests[k])
    requires c < |requests| && requests[c].Command? && requests[h].cid < Commands(requests)
    requires world.cores > 0
    ensures Reaches(world, requests, s) && |s.handlers| == |requests|
    ensures s.handlers[h].Replied?
    ensures s.handlers[k] == Waiting(uid, requests[k].jid, requests[k].input)
    ensures uid < |s.units| && s.units[uid] == Fresh(world, requests[c].command)
  {
    hide Reaches, Tokenizer.CommandLine;
    var s0;
    s0, uid := BothCanWait(world, requests, c, h, k);
    var jid := requests[h].jid;
    var s1 := RunNewest(world, requests, s0, uid, 0, None);
    assert s1.units[uid].stack == [Job(jid, requests[h].input)];
    var s2 := RunNewest(world, requests, s1, uid, 0, None);
    assert s2.units[uid].stack == [] && s2.units[uid].outputs == map[jid := None];
    s := Collect(world, requests, s2, h);
    assert s.units[uid].outputs == map[];
  }
}
