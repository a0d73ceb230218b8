/** One exchange between a remote slot and its server: the slot's cache, what it writes and
    what it reads. */
module Exchange {
  import opened Wrappers
  import opened Utf8
  import opened Codec
  import opened Connection
  import opened Instructions
  import opened Reading
  import opened Replies
  import ClientQueues
  import Decimal
  import Dispatcher
  import Escaping
  import Jobs

  class ResultsCache {
    var instruction: seq<Byte>
    var status: string
    var stdout: string
    var stderr: string

    constructor ()
      ensures instruction == [] && Clean()
    {
      instruction, status, stdout, stderr := [], "", "", "";
    }

    /** Nothing of an earlier result is left. */
    predicate Clean()
      reads this
    {
      status == "" && stdout == "" && stderr == ""
    }

    method Clear()
      modifies this
      ensures Clean() && instruction == old(instruction)
    {
      status, stdout, stderr := "", "", "";
    }

    /** The instruction is cleared only when the write succeeds, so after a failed write the next
        one starts with what is left of this one. */
    method WriteInstruction(wire: Wire, cid: Decimal.Usize, jid: Decimal.Usize, input: string, net: nat -> WriteResult)
      returns (ok: bool)
      modifies this, wire
      ensures unchanged(`status) && unchanged(`stdout) && unchanged(`stderr)
      ensures var pending := old(instruction) + Frame(Inp(cid, jid, input));
              exists calls: nat ::
                && 1 <= calls <= 4 && ok == net(calls - 1).Sent? && (!ok ==> calls == 4)
                && (forall k: nat | k < calls - 1 :: !net(k).Sent?)
                && wire.sent == old(wire.sent) + Written(pending, net, calls)
                && instruction == if ok then [] else pending
    {
      hide Encode, Decimal.ToString, Frame;
      InstructionBytes(cid, jid, input);
      AppendSeven(instruction, Encode("inp "), Encode(Decimal.ToString(cid)), [SPACE], Encode(Decimal.ToString(jid)),
                  [SPACE], Encode(input), CRLF);
      instruction := instruction + Encode("inp ");
      instruction := instruction + Encode(Decimal.ToString(cid));
      instruction := instruction + [SPACE];
      instruction := instruction + Encode(Decimal.ToString(jid));
      instruction := instruction + [SPACE];
      instruction := instruction + Encode(input);
      instruction := instruction + CRLF;
      var calls;
      ok, calls := AttemptWrite(wire, instruction, net);
      if ok {
        instruction := [];
      }
    }

    /** Appends three lines from the reader and cuts the last character off each. */
    method ReadFrom(reader: BufReader) returns (ok: bool)
      requires NoneEmpty(reader.source.chunks)
      modifies this, reader, reader.source
      ensures instruction == old(instruction) && NoneEmpty(reader.source.chunks)
      ensures (reader.buffer, reader.source.chunks) ==
              After(old(reader.buffer), old(reader.source.chunks), ReplyLength(old(reader.Stream())))
      ensures old(Clean()) ==>
                var stream := old(reader.Stream());
                var second := AfterLine(stream);
                var third := AfterLine(second);
                && (ok <==> Decode(LineOf(stream)).Some? && Decode(LineOf(second)).Some? && Decode(LineOf(third)).Some?)
                && (ok ==> status == Pop(Decode(LineOf(stream)).value)
                           && stdout == Pop(Decode(LineOf(second)).value)
                           && stderr == Pop(Decode(LineOf(third)).value))
    {
      hide LineOf, AfterLine, Decode, After, Pop;
      ghost var buffer, chunks := reader.buffer, reader.source.chunks;
      var line := reader.ReadLine();
      ghost var n := |line|;
      var text := Decode(line);
      if text.None? {
        return false;
      }
      status := status + text.value;
      assert old(status) == "" ==> status == text.value;
      line := reader.ReadLine();
      AfterTwice(buffer, chunks, n, |line|);
      n := n + |line|;
      text := Decode(line);
      if text.None? {
        return false;
      }
      stdout := stdout + text.value;
      assert old(stdout) == "" ==> stdout == text.value;
      line := reader.ReadLine();
      AfterTwice(buffer, chunks, n, |line|);
      text := Decode(line);
      if text.None? {
        return false;
      }
      stderr := stderr + text.value;
      assert old(stderr) == "" ==> stderr == text.value;
      status, stdout, stderr := Pop(status), Pop(stdout), Pop(stderr);
      ok := true;
    }

    /** Reads a reply and stores the result it carries; on any error nothing is stored. What the
        reader holds in the end is gone with it. */
    method ReadResults(stream: Incoming, outputs: ClientQueues.Outputs) returns (ok: bool)
      requires Clean() && NoneEmpty(stream.chunks)
      modifies this, stream, outputs
      ensures instruction == old(instruction) && NoneEmpty(stream.chunks)
      ensures var sent := Flatten(old(stream.chunks));
              && ok == ReadReply(sent).Ok?
              && stream.chunks == After([], old(stream.chunks), ReplyLength(sent)).1
              && outputs.outputs ==
                 match ReadReply(sent)
                 case Err(_) => old(outputs.outputs)
                 case Ok(Reply(jid, code, out, err)) =>
                   old(outputs.outputs)[jid := Dispatcher.Outcome(Jobs.Captured(code, out, err))]
    {
      hide LineOf, AfterLine, Decode, ParseStatus, Pop, After, ReplyLength;
      var reader := new BufReader(stream);
      assert reader.Stream() == Flatten(stream.chunks);
      ok := ReadFrom(reader);
      if !ok {
        return;
      }
      match ParseStatus(status) {
        case Err(_) =>
          ok := false;
        case Ok((jid, code)) =>
          var out := Escaping.Unescape(stdout);
          var err := Escaping.Unescape(stderr);
          outputs.PushExternal(jid, code, out, err);
      }
    }
  }

  lemma AppendSeven<T>(s: seq<T>, a: seq<T>, b: seq<T>, c: seq<T>, d: seq<T>, e: seq<T>, f: seq<T>, g: seq<T>)
    ensures s + a + b + c + d + e + f + g == s + (a + b + c + d + e + f + g)
  {
  }

  lemma InstructionBytes(cid: Decimal.Usize, jid: Decimal.Usize, input: string)
    ensures var c, j := Encode(Decimal.ToString(cid)), Encode(Decimal.ToString(jid));
            Frame(Inp(cid, jid, input)) ==
            Encode("inp ") + c + [SPACE] + j + [SPACE] + Encode(input) + CRLF
  {
    hide Encode, Decimal.ToString;
    var c, j := Decimal.ToString(cid), Decimal.ToString(jid);
    EncodeConcat("inp ", c + (" " + (j + (" " + input))));
    EncodeConcat(c, " " + (j + (" " + input)));
    EncodeAscii(' ', j + (" " + input));
    EncodeConcat(j, " " + input);
    EncodeAscii(' ', input);
  }

  /** What a server makes of a job reaches the client under the job's own number, with the
      captured text as escaping and unescaping leave it. */
  lemma ExchangeRelays(jid: Decimal.Usize, status: Decimal.U8, stdout: string, stderr: string)
    ensures match ReadReply(EncodeReply(Output(jid, status, stdout, stderr)))
            case Err(_) => false
            case Ok(Reply(id, code, out, err)) =>
              id == jid &&
              Jobs.Captured(code, out, err) == Dispatcher.Relayed(Jobs.Captured(status, stdout, stderr))
  {
    hide ReadReply, EncodeReply, Escaping.Escaped, Escaping.Unescaped;
    ReplyRead(jid, status, stdout, stderr, []);
    var reply := EncodeReply(Output(jid, status, stdout, stderr));
    assert reply + [] == reply;
  }

  lemma {:induction false} FlattenPrefix(chunks: seq<seq<Byte>>, m: nat)
    requires m <= |chunks|
    ensures Flatten(chunks[..m]) <= Flatten(chunks)
  {
    if m > 0 {
      FlattenPrefix(chunks[1..], m - 1);
      assert chunks[..m][1..] == chunks[1..][..m - 1];
    }
  }

  /** However a reply and what follows it arrive, the reply is read. Of what follows, the client
      loses what the reader has read ahead: nothing exactly when the reply ends with a chunk. */
  lemma ReadAheadIsLost(jid: Decimal.Usize, status: Decimal.U8, stdout: string, stderr: string,
                        tail: seq<Byte>, chunks: seq<seq<Byte>>)
    requires Flatten(chunks) == EncodeReply(Output(jid, status, stdout, stderr)) + tail
    ensures var reply := EncodeReply(Output(jid, status, stdout, stderr));
            var (lost, rest) := After([], chunks, ReplyLength(Flatten(chunks)));
            && ReadReply(Flatten(chunks)) == ReadReply(reply)
            && lost + Flatten(rest) == tail
            && (lost == [] <==> exists m :: 0 <= m <= |chunks| && Flatten(chunks[..m]) == reply)
  {
    hide ReadReply, ReplyLength, EncodeReply, After, Escaping.Escaped, Escaping.Unescaped;
    var reply := EncodeReply(Output(jid, status, stdout, stderr));
    ReplyRead(jid, status, stdout, stderr, tail);
    ReplyRead(jid, status, stdout, stderr, []);
    assert reply + [] == reply;
    assert [] + Flatten(chunks) == Flatten(chunks);
    AfterIsDrop([], chunks, |reply|);
    NothingHeldIff([], chunks, |reply|);
    forall m | 0 <= m <= |chunks|
      ensures |[] + Flatten(chunks[..m])| == |reply| <==> Flatten(chunks[..m]) == reply
    {
      FlattenPrefix(chunks, m);
      assert [] + Flatten(chunks[..m]) == Flatten(chunks[..m]);
      assert Flatten(chunks[..m]) <= reply + tail;
    }
  }

  /** After writes that failed without sending anything, a successful write of the next job sends
      all the instructions that were left before it, so the request the server answers first
      is the oldest of them and not the job the slot holds. */
  lemma LeftoverIsSentFirst(left: seq<Instruction>, job: Instruction, net: nat -> WriteResult, calls: nat)
    requires forall i <- left + [job] :: Sendable(i) && i.Inp?
    requires calls >= 1 && net(calls - 1).Sent?
    requires var pending := Frames(left) + Frame(job);
             forall k: nat | k < calls - 1 :: Part(pending, net(k)) == []
    ensures var pending := Frames(left) + Frame(job);
            && Receive(START, Written(pending, net, calls)) == Receiver([], Requests(left + [job]))
            && Requests(left + [job])[0] == Event(Request(if left == [] then job else left[0]))
  {
    hide Frame, Sendable, Request, Drain;
    var pending := Frames(left) + Frame(job);
    CleanWrite(pending, net, calls);
    FramesOfAppended(left, job);
    InstructionRoundTrip(left + [job], [pending]);
    assert Flatten([pending]) == pending + [] == pending by { FlattenOne(pending); }
    assert ReceiveAll(START, [pending]) == Receive(START, pending) by { ReceiveOne(pending); }
  }

  lemma FlattenOne(chunk: seq<Byte>)
    ensures Flatten([chunk]) == chunk
  {
    assert [chunk][1..] == [];
    assert chunk + [] == chunk;
  }

  lemma ReceiveOne(chunk: seq<Byte>)
    ensures ReceiveAll(START, [chunk]) == Receive(START, chunk)
  {
    hide Receive;
    assert [chunk][1..] == [];
  }

  lemma {:induction false} FramesOfAppended(left: seq<Instruction>, job: Instruction)
    ensures Frames(left + [job]) == Frames(left) + Frame(job)
  {
    hide Frame;
    if left == [] {
      assert [job][1..] == [] && [] + [job] == [job];
      assert Frames([job]) == Frame(job) + Frames([]);
    } else {
      assert (left + [job])[1..] == left[1..] + [job];
      FramesOfAppended(left[1..], job);
    }
  }
}
