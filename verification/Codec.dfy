/** The server's instruction parser and the incremental decoder that feeds it. */
module Codec {
  import opened Wrappers
  import opened Utf8
  import Decimal

  const NEWLINE: Byte := 10
  const SPACE: Byte := 32

  // The words of the instruction set, as bytes.
  const COM: seq<Byte> := [99, 111, 109]
  const INP: seq<Byte> := [105, 110, 112]
  const GET: seq<Byte> := [103, 101, 116]
  const DEL: seq<Byte> := [100, 101, 108]
  const COMMS: seq<Byte> := [99, 111, 109, 109, 115]
  const CORES: seq<Byte> := [99, 111, 114, 101, 115]

  datatype JobEvent =
    | Command(command: string)
    | Input(cid: Decimal.Usize, jid: Decimal.Usize, input: string)
    | GetCommands
    | GetCores
    | StopJob(id: Decimal.Usize)

  datatype DecodeError =
    InvalidCall | InvalidInstruction | InvalidUtf8 | NotANumber | Unsupported | NotEnoughArguments

  // ---------- Arguments ----------

  /** `position`: the first occurrence of `x`, or |b|. */
  function IndexOf(b: seq<Byte>, x: Byte): (i: nat)
    ensures i <= |b| && x !in b[..i] && (i < |b| ==> b[i] == x)
  {
    if b == [] || b[0] == x then 0 else
    var i := IndexOf(b[1..], x);
    assert b[..1 + i] == [b[0]] + b[1..][..i];
    1 + i
  }

  function Obtain(b: seq<Byte>): Result<string, DecodeError> {
    match Decode(b) case None => Err(InvalidUtf8) case Some(text) => Ok(text)
  }

  function ParseUsize(b: seq<Byte>): Result<Decimal.Usize, DecodeError> {
    match Decode(b)
    case None => Err(InvalidUtf8)
    case Some(text) =>
      match Decimal.Parse(text, Decimal.USIZE_MAX)
      case None => Err(NotANumber)
      case Some(n) => Ok(n)
  }

  function ParseCommand(b: seq<Byte>): Result<JobEvent, DecodeError> {
    match Obtain(b) case Err(e) => Err(e) case Ok(text) => Ok(Command(text))
  }

  function ParseOption(b: seq<Byte>): Result<JobEvent, DecodeError> {
    if b == COMMS then Ok(GetCommands)
    else if b == CORES then Ok(GetCores)
    else Err(Unsupported)
  }

  function ParseStop(b: seq<Byte>): Result<JobEvent, DecodeError> {
    match ParseUsize(b) case Err(e) => Err(e) case Ok(id) => Ok(StopJob(id))
  }

  /** Command id, job id and input, separated by the first two spaces. */
  function ParseInput(b: seq<Byte>): Result<JobEvent, DecodeError> {
    var i := IndexOf(b, SPACE);
    if i == |b| then Err(NotEnoughArguments) else
    match ParseUsize(b[..i])
    case Err(e) => Err(e)
    case Ok(cid) =>
      var rest := b[i + 1..];
      var k := IndexOf(rest, SPACE);
      if k == |rest| then Err(NotEnoughArguments) else
      match ParseUsize(rest[..k])
      case Err(e) => Err(e)
      case Ok(jid) =>
        match Obtain(rest[k + 1..]) case Err(e) => Err(e) case Ok(text) => Ok(Input(cid, jid, text))
  }

  function ParseArgument(argument: seq<Byte>): Result<JobEvent, DecodeError> {
    if |argument| < 5 then Err(InvalidCall)
    else if argument[..3] == COM then ParseCommand(argument[4..])
    else if argument[..3] == INP then ParseInput(argument[4..])
    else if argument[..3] == GET then ParseOption(argument[4..])
    else if argument[..3] == DEL then ParseStop(argument[4..])
    else Err(InvalidInstruction)
  }

  // ---------- One call of the decoder ----------

  /** `Panicked` is the subtraction underflow on a buffer that starts with a newline. */
  datatype Decoded = Incomplete | Event(event: JobEvent) | Failed(error: DecodeError) | Panicked

  function Outcome(parsed: Result<JobEvent, DecodeError>): (d: Decoded)
    ensures !d.Incomplete? && !d.Panicked?
  {
    match parsed case Ok(event) => Event(event) case Err(error) => Failed(error)
  }

  /** What one call yields on a buffer, and what it leaves of it. */
  function DecodeFrame(buffer: seq<Byte>): (r: (Decoded, seq<Byte>))
    ensures !r.0.Incomplete? && !r.0.Panicked? ==> |r.1| < |buffer|
  {
    var i := IndexOf(buffer, NEWLINE);
    if i == |buffer| then (Incomplete, buffer)
    else if i == 0 then (Panicked, buffer)
    else (Outcome(ParseArgument(buffer[..i - 1])), buffer[i + 1..])
  }

  class BytesMut {
    var data: seq<Byte>

    constructor ()
      ensures data == []
    {
      data := [];
    }

    method Extend(bytes: seq<Byte>)
      modifies this
      ensures data == old(data) + bytes
    {
      data := data + bytes;
    }

    /** Takes the first `at` bytes out of the buffer. */
    method SplitTo(at: nat) returns (head: seq<Byte>)
      requires at <= |data|
      modifies this
      ensures head == old(data)[..at] && data == old(data)[at..]
    {
      head := data[..at];
      data := data[at..];
    }
  }

  method DecodeNext(buf: BytesMut) returns (decoded: Decoded)
    modifies buf
    ensures (decoded, buf.data) == DecodeFrame(old(buf.data))
  {
    var i := IndexOf(buf.data, NEWLINE);
    if i == |buf.data| {
      return Incomplete;
    }
    if i == 0 {
      return Panicked;
    }
    var argument := buf.SplitTo(i - 1);
    var _ := buf.SplitTo(2);
    decoded := Outcome(ParseArgument(argument));
  }

  // ---------- Chunks ----------

  lemma {:induction false} IndexOfUnique(b: seq<Byte>, x: Byte, i: nat)
    requires i <= |b| && x !in b[..i] && (i < |b| ==> b[i] == x)
    ensures IndexOf(b, x) == i
  {
    var k := IndexOf(b, x);
    assert forall j | 0 <= j < i :: b[j] in b[..i];
    assert forall j | 0 <= j < k :: b[j] in b[..k];
  }

  /** More bytes never change what a call has already found; a call that finds nothing takes nothing. */
  lemma DecodeExtends(b: seq<Byte>, c: seq<Byte>)
    ensures var (decoded, rest) := DecodeFrame(b);
            if decoded.Incomplete? then rest == b else DecodeFrame(b + c) == (decoded, rest + c)
  {
    var i := IndexOf(b, NEWLINE);
    if i < |b| {
      assert (b + c)[..i] == b[..i];
      IndexOfUnique(b + c, NEWLINE, i);
      if i > 0 {
        assert (b + c)[..i - 1] == b[..i - 1];
        assert (b + c)[i + 1..] == b[i + 1..] + c;
      }
    }
  }

  /** A connection's unread bytes and everything the decoder has yielded on it. */
  datatype Receiver = Receiver(buffer: seq<Byte>, outcomes: seq<Decoded>) {
    predicate Dead() {
      outcomes != [] && outcomes[|outcomes| - 1].Panicked?
    }
  }

  const START: Receiver := Receiver([], [])

  /** Calls the decoder until it needs more bytes or has panicked. */
  function Drain(r: Receiver): Receiver
    decreases |r.buffer|
  {
    if r.Dead() then r else
    var (decoded, rest) := DecodeFrame(r.buffer);
    if decoded.Incomplete? then r
    else if decoded.Panicked? then Receiver(rest, r.outcomes + [decoded])
    else Drain(Receiver(rest, r.outcomes + [decoded]))
  }

  function Receive(r: Receiver, chunk: seq<Byte>): Receiver {
    Drain(Receiver(r.buffer + chunk, r.outcomes))
  }

  function ReceiveAll(r: Receiver, chunks: seq<seq<Byte>>): Receiver
    decreases |chunks|
  {
    if chunks == [] then r else ReceiveAll(Receive(r, chunks[0]), chunks[1..])
  }

  function Flatten(chunks: seq<seq<Byte>>): seq<Byte> {
    if chunks == [] then [] else chunks[0] + Flatten(chunks[1..])
  }

  /** Bytes arrive; the decoder is called until it has no more to say. */
  method Feed(buf: BytesMut, chunk: seq<Byte>, outcomes: seq<Decoded>) returns (all: seq<Decoded>)
    requires !Receiver(buf.data, outcomes).Dead()
    modifies buf
    ensures Receiver(buf.data, all) == Receive(Receiver(old(buf.data), outcomes), chunk)
  {
    buf.Extend(chunk);
    all := outcomes;
    while true
      invariant !Receiver(buf.data, all).Dead()
      invariant Drain(Receiver(buf.data, all)) == Receive(Receiver(old(buf.data), outcomes), chunk)
      decreases |buf.data|
    {
      var decoded := DecodeNext(buf);
      if decoded.Incomplete? {
        break;
      }
      all := all + [decoded];
      if decoded.Panicked? {
        break;
      }
    }
  }

  /** Draining early makes no difference to bytes that come later. */
  lemma {:induction false} DrainExtends(r: Receiver, chunk: seq<Byte>)
    ensures Receive(Drain(r), chunk) == Receive(r, chunk)
    decreases |r.buffer|
  {
    if !r.Dead() {
      DecodeExtends(r.buffer, chunk);
      var (decoded, rest) := DecodeFrame(r.buffer);
      if !decoded.Incomplete? && !decoded.Panicked? {
        DrainExtends(Receiver(rest, r.outcomes + [decoded]), chunk);
      }
    }
  }

  lemma {:induction false} ReceiveInPieces(r: Receiver, chunks: seq<seq<Byte>>)
    ensures ReceiveAll(Drain(r), chunks) == Receive(r, Flatten(chunks))
    decreases |chunks|
  {
    if chunks == [] {
      assert r.buffer + [] == r.buffer;
    } else {
      var extended := Receiver(r.buffer + chunks[0], r.outcomes);
      DrainExtends(r, chunks[0]);
      ReceiveInPieces(extended, chunks[1..]);
      assert r.buffer + (chunks[0] + Flatten(chunks[1..])) == r.buffer + chunks[0] + Flatten(chunks[1..]);
    }
  }

  /** However a stream is cut into chunks, the decoder yields what it yields on the whole. */
  lemma ChunkingIndependence(chunks: seq<seq<Byte>>)
    ensures ReceiveAll(START, chunks) == Receive(START, Flatten(chunks))
  {
    ReceiveInPieces(START, chunks);
    assert IndexOf([], NEWLINE) == 0;
  }
}
