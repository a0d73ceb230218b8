/** The loop of a remote slot with all its parts, and the whole way of a job over the wire: what the
    slot writes, what the server makes of it, and what the slot stores. */
module SlotLoop {
  import opened Wrappers
  import opened Utf8
  import opened Codec
  import opened Connection
  import opened Instructions
  import opened Reading
  import opened Replies
  import opened Exchange
  import opened ClientQueues
  import opened Dispatcher
  import opened DispatcherPasses
  import opened Jobs
  import CommandPool
  import CommandPoolReplies
  import CommandPoolRequests
  import Decimal
  import TemplateLaws
  import Tokenizer

  // ---------- One pass ----------

  /** One of the four calls of a retried write succeeds. */
  predicate Delivers(net: nat -> WriteResult) {
    net(0).Sent? || net(1).Sent? || net(2).Sent? || net(3).Sent?
  }

  /** What the slot gets out of an exchange. */
  function ReplyTo(net: nat -> WriteResult, incoming: seq<Byte>): Option<Reply> {
    if !Delivers(net) then None
    else match ReadReply(incoming) case Err(_) => None case Ok(reply) => Some(reply)
  }

  /** The queues after a pass: a reply is stored under the id it carries, whatever the slot holds. */
  function AfterPass(s: State, reply: Option<Reply>): State
    requires NextEntry(s).Some? ==> NextEntry(s).value.jid < |s.failures|
  {
    if NextEntry(s).None? then s
    else match reply
         case None => AfterExchange(AfterTake(s), NextEntry(s).value, None)
         case Some(Reply(id, status, out, err)) =>
           AfterTake(s).(outputs := s.outputs[id := Outcome(Captured(status, out, err))])
  }

  /** The reply is what a server relays of the job the slot has sent. */
  ghost predicate Relays(cfg: Config, entry: Entry, reply: Reply) {
    && reply.jid == entry.jid
    && exists sid: nat, captured ::
         RelaysFrom(cfg, entry, sid, captured) && Captured(reply.status, reply.stdout, reply.stderr) == Relayed(captured)
  }

  predicate RelaysFrom(cfg: Config, entry: Entry, sid: nat, captured: Captured) {
    cfg.shell(Tokenizer.Expand(Tokenizer.Tokenise(cfg.template), sid, entry.jid, entry.input), captured)
  }

  /** A pass is a run of the dispatcher unless it gets a reply to another job. */
  lemma PassIsRun(cfg: Config, s: State, i: nat, reply: Option<Reply>) returns (events: seq<Event>)
    requires i < |s.slots| == |cfg.kinds| && s.slots[i].Idle? && cfg.kinds[i].Remote? && !s.main.KillSet?
    requires NextEntry(s).Some? ==> NextEntry(s).value.jid < |s.failures|
    requires NextEntry(s).Some? && reply.Some? ==> Relays(cfg, NextEntry(s).value, reply.value)
    ensures Run(cfg, s, events) == Some(AfterPass(s, reply))
  {
    hide Run, Relayed, Tokenizer.Expand, Tokenizer.Tokenise;
    if NextEntry(s).None? || reply.None? {
      events := PassRun(cfg, s, i, None);
    } else {
      var sid: nat, captured :| RelaysFrom(cfg, NextEntry(s).value, sid, captured)
                                && Captured(reply.value.status, reply.value.stdout, reply.value.stderr) == Relayed(captured);
      events := PassRun(cfg, s, i, Some((sid, captured)));
    }
  }

  /** A slot gets a reply exactly when its instruction went out and what came in begins with the three
      lines of a result. */
  lemma ReplyIff(net: nat -> WriteResult, incoming: seq<Byte>, reply: Reply)
    ensures ReplyTo(net, incoming) == Some(reply) <==> Delivers(net) && IsResult(incoming, reply)
  {
    hide ReadReply, IsResult;
    ReadReplyIff(incoming, reply);
  }

  /** The job is back on the retry stack with one more failure, or given up after its fourth. */
  predicate PutBack(s: State, entry: Entry, t: State)
    requires entry.jid < |s.failures|
  {
    && t.outputs == s.outputs
    && t.failures == s.failures[entry.jid := s.failures[entry.jid] + 1]
    && (if entry.tries == 3 then t.failed == s.failed[entry.jid := entry.input] && t.retries == AfterTake(s).retries
        else t.failed == s.failed && t.retries == AfterTake(s).retries + [Entry(entry.jid, entry.input, entry.tries + 1)])
  }

  /** Without such a reply, as on a connection that was closed before anything came, nothing is stored
      and the job is put back or given up. */
  lemma NoReplyPutsBack(s: State, net: nat -> WriteResult, incoming: seq<Byte>)
    requires NextEntry(s).Some? && NextEntry(s).value.jid < |s.failures|
    ensures (forall reply :: !IsResult(incoming, reply)) || !Delivers(net) ==>
              PutBack(s, NextEntry(s).value, AfterPass(s, ReplyTo(net, incoming)))
    ensures forall reply :: !IsResult([], reply)
  {
    hide ReadReply, IsResult;
    NothingIsNoReply();
    forall reply
      ensures !IsResult([], reply)
    {
      ReadReplyIff([], reply);
    }
    if ReplyTo(net, incoming).Some? {
      ReplyIff(net, incoming, ReplyTo(net, incoming).value);
    }
  }

  /** A slot of a remote node and the objects it shares with the others. */
  class RemoteSlot {
    const id: Decimal.Usize
    const inputs: Inputs
    const outputs: Outputs
    const errors: Retries
    const failed: GivenUp

    constructor (id: Decimal.Usize, inputs: Inputs, outputs: Outputs, errors: Retries, failed: GivenUp)
      ensures this.id == id
      ensures this.inputs == inputs && this.outputs == outputs && this.errors == errors && this.failed == failed
    {
      this.id := id;
      this.inputs := inputs;
      this.outputs := outputs;
      this.errors := errors;
      this.failed := failed;
    }

    /** The queues are those of the dispatcher's state. */
    ghost predicate Shows(s: State)
      reads inputs, outputs, errors, failed
    {
      s.fifo == inputs.inputs && s.outputs == outputs.outputs
      && s.retries == errors.errors && s.failed == failed.failed
    }

    method NextInput(ghost s: State) returns (next: Option<Entry>)
      requires Shows(s)
      modifies inputs, errors
      ensures next == NextEntry(s) && Shows(AfterTake(s))
    {
      var job := inputs.GetJob();
      if job.Some? {
        return Some(Entry(job.value.jid, job.value.input, 0));
      }
      next := errors.PopBack();
    }

    /** One pass of the slot's loop: take a job, write its instruction, read a reply and store what
        it carries, or put the job back. `net` says how the writes end, `stream` what comes in. */
    method Pass(cache: ResultsCache, wire: Wire, stream: Incoming, net: nat -> WriteResult,
                ghost cfg: Config, ghost s: State, ghost i: nat)
      returns (ghost events: seq<Event>)
      requires Shows(s) && Inv(cfg, s) && i < |s.slots| && s.slots[i].Idle? && cfg.kinds[i].Remote? && !s.main.KillSet?
      requires |cfg.inputs| <= Decimal.USIZE_MAX && cache.Clean() && NoneEmpty(stream.chunks)
      modifies inputs, outputs, errors, failed, cache, wire, stream
      ensures cache.Clean() && NoneEmpty(stream.chunks)
      ensures NextEntry(s).Some? ==> NextEntry(s).value.jid < |s.failures|
      ensures var reply := ReplyTo(net, Flatten(old(stream.chunks)));
              && Shows(AfterPass(s, reply))
              && ((NextEntry(s).Some? && reply.Some? ==> Relays(cfg, NextEntry(s).value, reply.value)) ==>
                    Run(cfg, s, events) == Some(AfterPass(s, reply)))
    {
      hide Inv, Run, Relayed, Relays, ReadReply, Frame, After, ReplyLength;
      NextEntryInRange(cfg, s);
      ghost var reply := ReplyTo(net, Flatten(stream.chunks));
      events := [];
      if NextEntry(s).Some? && reply.Some? ==> Relays(cfg, NextEntry(s).value, reply.value) {
        events := PassIsRun(cfg, s, i, reply);
      }
      var next := NextInput(s);
      if next.None? {
        return;
      }
      var Entry(jid, input, tries) := next.value;
      var ok := cache.WriteInstruction(wire, id, jid, input, net);
      if ok {
        ok := cache.ReadResults(stream, outputs);
      }
      cache.Clear();
      if !ok {
        if tries == 3 {
          failed.Insert(jid, input);
        } else {
          errors.PushBack(Entry(jid, input, tries + 1));
        }
      }
    }
  }

  // ---------- End to end ----------

  lemma CleanFrameArrives(cid: Decimal.Usize, jid: Decimal.Usize, input: string, net: nat -> WriteResult, calls: nat)
    requires '\n' !in input && calls >= 1 && net(calls - 1).Sent?
    requires forall k: nat | k < calls - 1 :: Part(Frame(Inp(cid, jid, input)), net(k)) == []
    ensures Receive(START, Written(Frame(Inp(cid, jid, input)), net, calls)) == Receiver([], [Codec.Event(Input(cid, jid, input))])
  {
    hide Frame, Receive;
    var i := Inp(cid, jid, input);
    CleanWrite(Frame(i), net, calls);
    FrameCarriesIff(i);
  }

  /** A job's whole exchange. The slot writes its instruction cleanly; the server decodes it, its
      workers run it, and its reply is read. If on the server replies belong to their requests, the
      slot then stores exactly what the dispatcher's `Complete` step stores. */
  lemma ExchangeIsComplete(cfg: Config, s: State, i: nat, cid: Decimal.Usize, net: nat -> WriteResult, calls: nat,
                           world: CommandPool.World, requests: seq<JobEvent>, server: CommandPool.State, h: nat,
                           captured: Captured)
    requires i < |s.slots| == |cfg.kinds| && s.slots[i].Holding? && cfg.kinds[i].Remote?
    requires s.slots[i].entry.jid <= Decimal.USIZE_MAX && '\n' !in s.slots[i].entry.input
    requires var frame := Frame(Inp(cid, s.slots[i].entry.jid, s.slots[i].entry.input));
             && calls >= 1 && net(calls - 1).Sent? && (forall k: nat | k < calls - 1 :: Part(frame, net(k)) == [])
             && h < |requests| && Receive(START, Written(frame, net, calls)) == Receiver([], [Codec.Event(requests[h])])
    requires world.shell == cfg.shell && CommandPoolRequests.Reaches(world, requests, server)
    requires CommandPoolReplies.RepliesBelong(world, server)
    requires h < |server.handlers| && server.handlers[h].Replied? && server.handlers[h].result == Some(captured)
    requires server.handlers[h].uid < |server.units| && server.units[server.handlers[h].uid].template == cfg.template
    requires captured.status <= Decimal.U8_MAX
    ensures var entry := s.slots[i].entry;
            match ReadReply(EncodeReply(Output(entry.jid, captured.status, captured.stdout, captured.stderr)))
            case Err(_) => false
            case Ok(reply) =>
              Relays(cfg, entry, reply)
              && exists sid: nat ::
                   Step(cfg, s, Complete(i, sid, captured)) ==
                   Some(s.(slots := s.slots[i := Idle],
                           outputs := s.outputs[reply.jid := Outcome(Captured(reply.status, reply.stdout, reply.stderr))]))
  {
    hide Frame, Receive, ReadReply, EncodeReply, Relayed, Relays, CommandPoolRequests.Reaches, CommandPoolRequests.AskedResult,
      Tokenizer.Expand, Tokenizer.Tokenise, Tokenizer.CommandLine;
    var entry := s.slots[i].entry;
    CleanFrameArrives(cid, entry.jid, entry.input, net, calls);
    assert requests[h] == Input(cid, entry.jid, entry.input);
    CommandPoolRequests.ReplyIsForItsIds(world, requests, server, h);
    var w: nat :| w < world.cores && cfg.shell(Tokenizer.CommandLine(cfg.template, w, entry.jid, entry.input), captured);
    TemplateLaws.ExpandTokenised(cfg.template, w, entry.jid, entry.input);
    ExchangeRelays(entry.jid, captured.status, captured.stdout, captured.stderr);
    var reply := ReadReply(EncodeReply(Output(entry.jid, captured.status, captured.stdout, captured.stderr))).value;
    assert Captured(captured.status, captured.stdout, captured.stderr) == captured;
    assert Relays(cfg, entry, reply) by { RelayedFrom(cfg, entry, reply, w, captured); }
    assert Step(cfg, s, Complete(i, w, captured)) ==
           Some(s.(slots := s.slots[i := Idle],
                   outputs := s.outputs[reply.jid := Outcome(Captured(reply.status, reply.stdout, reply.stderr))]));
  }

  lemma RelayedFrom(cfg: Config, entry: Entry, reply: Reply, sid: nat, captured: Captured)
    requires reply.jid == entry.jid && RelaysFrom(cfg, entry, sid, captured)
    requires Captured(reply.status, reply.stdout, reply.stderr) == Relayed(captured)
    ensures Relays(cfg, entry, reply)
  {
  }
}
