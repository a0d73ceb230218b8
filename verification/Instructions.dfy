/** The instructions a client writes, and what the server's decoder makes of them. */
module Instructions {
  import opened Wrappers
  import opened Utf8
  import opened Codec
  import Decimal

  /** What the protocol lets a client write; this one never asks for the list of commands. */
  datatype Instruction =
    | Com(command: string)
    | Inp(cid: Decimal.Usize, jid: Decimal.Usize, input: string)
    | Comms
    | Cores
    | Del(id: Decimal.Usize)

  const CRLF: seq<Byte> := [13, 10]

  /** The line written for an instruction, without its ending. */
  function Line(i: Instruction): string {
    match i
    case Com(command) => "com " + command
    case Inp(cid, jid, input) => "inp " + (Decimal.ToString(cid) + (" " + (Decimal.ToString(jid) + (" " + input))))
    case Comms => "get comms"
    case Cores => "get cores"
    case Del(id) => "del " + Decimal.ToString(id)
  }

  function Frame(i: Instruction): seq<Byte> {
    Encode(Line(i)) + CRLF
  }

  function Frames(instructions: seq<Instruction>): seq<Byte> {
    if instructions == [] then [] else Frame(instructions[0]) + Frames(instructions[1..])
  }

  function Request(i: Instruction): JobEvent {
    match i
    case Com(command) => Command(command)
    case Inp(cid, jid, input) => Input(cid, jid, input)
    case Comms => GetCommands
    case Cores => GetCores
    case Del(id) => StopJob(id)
  }

  function Requests(instructions: seq<Instruction>): seq<Decoded> {
    seq(|instructions|, k requires 0 <= k < |instructions| => Event(Request(instructions[k])))
  }

  /** What a frame can carry: text without newlines, and a command that is not empty. */
  predicate Sendable(i: Instruction) {
    match i
    case Com(command) => command != "" && '\n' !in command
    case Inp(cid, jid, input) => '\n' !in input
    case Comms => true
    case Cores => true
    case Del(id) => true
  }

  // ---------- Parsing what was written ----------

  lemma EncodeAscii(c: char, rest: string)
    requires c as int < 128
    ensures Encode([c] + rest) == [c as int] + Encode(rest)
  {
    assert ([c] + rest)[1..] == rest;
  }

  lemma EncodeFour(a: char, b: char, c: char, d: char, rest: string)
    requires a as int < 128 && b as int < 128 && c as int < 128 && d as int < 128
    ensures Encode([a, b, c, d] + rest) == [a as int, b as int, c as int, d as int] + Encode(rest)
  {
    hide Encode;
    EncodeAscii(d, rest);
    EncodeAscii(c, [d] + rest);
    EncodeAscii(b, [c] + ([d] + rest));
    EncodeAscii(a, [b] + ([c] + ([d] + rest)));
    assert [a, b, c, d] + rest == [a] + ([b] + ([c] + ([d] + rest)));
  }

  lemma NumberParses(n: Decimal.Usize)
    ensures ParseUsize(Encode(Decimal.ToString(n))) == Ok(n)
    ensures SPACE !in Encode(Decimal.ToString(n))
    ensures '\n' !in Decimal.ToString(n)
  {
    var digits := Decimal.ToString(n);
    DecodeEncode(digits);
    Decimal.ParseToString(n, Decimal.USIZE_MAX);
    assert ' ' !in digits && '\n' !in digits;
    AsciiOccurs(digits, ' ');
  }

  /** A field that holds no space ends at the space that follows it. */
  lemma FieldEnds(field: seq<Byte>, rest: seq<Byte>)
    requires SPACE !in field
    ensures var b := field + ([SPACE] + rest);
            IndexOf(b, SPACE) == |field| && b[..|field|] == field && b[|field| + 1..] == rest
  {
    var b := field + ([SPACE] + rest);
    assert b[..|field|] == field;
    IndexOfUnique(b, SPACE, |field|);
  }

  lemma InputParses(cid: Decimal.Usize, jid: Decimal.Usize, input: string)
    ensures ParseInput(Encode(Decimal.ToString(cid) + (" " + (Decimal.ToString(jid) + (" " + input)))))
            == Ok(Input(cid, jid, input))
  {
    hide Encode, Decode, IndexOf, ParseUsize, Decimal.ToString;
    var c, j := Decimal.ToString(cid), Decimal.ToString(jid);
    NumberParses(cid);
    NumberParses(jid);
    DecodeEncode(input);
    EncodeConcat(c, " " + (j + (" " + input)));
    EncodeAscii(' ', j + (" " + input));
    EncodeConcat(j, " " + input);
    EncodeAscii(' ', input);
    FieldEnds(Encode(c), Encode(j) + ([SPACE] + Encode(input)));
    FieldEnds(Encode(j), Encode(input));
  }

  /** The four words are told apart, and each is followed by one space. */
  lemma WordsEncoded(rest: string)
    ensures Encode("com " + rest) == COM + [SPACE] + Encode(rest)
    ensures Encode("inp " + rest) == INP + [SPACE] + Encode(rest)
    ensures Encode("get " + rest) == GET + [SPACE] + Encode(rest)
    ensures Encode("del " + rest) == DEL + [SPACE] + Encode(rest)
  {
    hide Encode;
    EncodeFour('c', 'o', 'm', ' ', rest);
    EncodeFour('i', 'n', 'p', ' ', rest);
    EncodeFour('g', 'e', 't', ' ', rest);
    EncodeFour('d', 'e', 'l', ' ', rest);
    assert "com " == ['c', 'o', 'm', ' '] && "inp " == ['i', 'n', 'p', ' '];
    assert "get " == ['g', 'e', 't', ' '] && "del " == ['d', 'e', 'l', ' '];
    assert [99, 111, 109, 32] == COM + [SPACE] && [105, 110, 112, 32] == INP + [SPACE];
    assert [103, 101, 116, 32] == GET + [SPACE] && [100, 101, 108, 32] == DEL + [SPACE];
  }

  lemma Dispatch(word: seq<Byte>, rest: seq<Byte>)
    requires |word| == 3 && rest != []
    ensures ParseArgument(word + [SPACE] + rest) ==
            if word == COM then ParseCommand(rest)
            else if word == INP then ParseInput(rest)
            else if word == GET then ParseOption(rest)
            else if word == DEL then ParseStop(rest)
            else Err(InvalidInstruction)
  {
    hide ParseCommand, ParseInput, ParseOption, ParseStop;
    var argument := word + [SPACE] + rest;
    assert argument[..3] == word && argument[4..] == rest;
  }

  lemma LineParses(i: Instruction)
    requires i.Com? ==> i.command != ""
    ensures ParseArgument(Encode(Line(i))) == Ok(Request(i))
  {
    hide Encode, Decode, IndexOf, ParseUsize, ParseInput, ParseArgument, Decimal.ToString;
    EncodeEmpty();
    WordsDiffer();
    match i
    case Com(command) =>
      WordsEncoded(command);
      DecodeEncode(command);
      Dispatch(COM, Encode(command));
    case Inp(cid, jid, input) =>
      var rest := Decimal.ToString(cid) + (" " + (Decimal.ToString(jid) + (" " + input)));
      WordsEncoded(rest);
      InputParses(cid, jid, input);
      Dispatch(INP, Encode(rest));
    case Comms =>
      WordsEncoded("comms");
      OptionsEncoded();
      Dispatch(GET, COMMS);
    case Cores =>
      WordsEncoded("cores");
      OptionsEncoded();
      Dispatch(GET, CORES);
    case Del(id) =>
      WordsEncoded(Decimal.ToString(id));
      NumberParses(id);
      Dispatch(DEL, Encode(Decimal.ToString(id)));
  }

  lemma WordsDiffer()
    ensures COM != INP && COM != GET && COM != DEL && INP != GET && INP != DEL && GET != DEL
    ensures CORES != COMMS
  {
    assert COM[0] != INP[0] && COM[0] != GET[0] && COM[0] != DEL[0];
    assert INP[0] != GET[0] && INP[0] != DEL[0] && GET[0] != DEL[0];
    assert CORES[2] != COMMS[2];
  }

  lemma OptionsEncoded()
    ensures Encode("cores") == CORES && Encode("comms") == COMMS
    ensures "get cores" == "get " + "cores" && "get comms" == "get " + "comms"
  {
    hide Encode;
    assert Encode("") == [] by { EncodeEmpty(); }
    EncodeAscii('s', "");
    assert "s" == ['s'] + "";
    EncodeFour('c', 'o', 'r', 'e', "s");
    assert "cores" == ['c', 'o', 'r', 'e'] + "s";
    EncodeFour('c', 'o', 'm', 'm', "s");
    assert "comms" == ['c', 'o', 'm', 'm'] + "s";
  }

  lemma EncodeEmpty()
    ensures forall s: string :: Encode(s) == [] <==> s == ""
  {
  }

  // ---------- Frames ----------

  lemma InAppended(a: string, b: string, c: char)
    ensures c in a + b <==> c in a || c in b
  {
  }

  /** Only the text of an instruction can put a newline on its line. */
  lemma NewlineInLine(i: Instruction)
    ensures '\n' in Line(i) <==> (i.Com? && '\n' in i.command) || (i.Inp? && '\n' in i.input)
  {
    hide Encode, Decimal.ToString, ParseUsize;
    match i
    case Com(command) =>
      InAppended("com ", command, '\n');
    case Inp(cid, jid, input) =>
      var c, j := Decimal.ToString(cid), Decimal.ToString(jid);
      NumberParses(cid);
      NumberParses(jid);
      InAppended("inp ", c + (" " + (j + (" " + input))), '\n');
      InAppended(c, " " + (j + (" " + input)), '\n');
      InAppended(" ", j + (" " + input), '\n');
      InAppended(j, " " + input, '\n');
      InAppended(" ", input, '\n');
    case Comms =>
    case Cores =>
    case Del(id) =>
      NumberParses(id);
      InAppended("del ", Decimal.ToString(id), '\n');
  }

  lemma LineWithoutNewline(i: Instruction)
    ensures NEWLINE in Encode(Line(i)) <==> (i.Com? && '\n' in i.command) || (i.Inp? && '\n' in i.input)
  {
    hide Encode, Line;
    NewlineInLine(i);
    AsciiOccurs(Line(i), '\n');
  }

  /** One call of the decoder takes one sendable frame, whatever follows it. */
  lemma FrameDecodes(i: Instruction, rest: seq<Byte>)
    requires Sendable(i)
    ensures DecodeFrame(Frame(i) + rest) == (Event(Request(i)), rest)
  {
    hide Encode, Line, ParseArgument, IndexOf, Request;
    var body := Encode(Line(i));
    var b := Frame(i) + rest;
    LineWithoutNewline(i);
    LineParses(i);
    assert b[..|body|] == body;
    assert b[..|body| + 1] == body + [13];
    assert b[|body| + 1] == CRLF[1] == NEWLINE;
    IndexOfUnique(b, NEWLINE, |body| + 1);
    assert b[|body| + 2..] == rest;
  }

  lemma DrainFrame(i: Instruction, rest: seq<Byte>, before: seq<Decoded>)
    requires Sendable(i) && !Receiver([], before).Dead()
    ensures Drain(Receiver(Frame(i) + rest, before)) == Drain(Receiver(rest, before + [Event(Request(i))]))
    ensures !Receiver([], before + [Event(Request(i))]).Dead()
  {
    FrameDecodes(i, rest);
  }

  lemma RequestsStep(instructions: seq<Instruction>, before: seq<Decoded>)
    requires instructions != []
    ensures before + [Event(Request(instructions[0]))] + Requests(instructions[1..]) == before + Requests(instructions)
  {
  }

  lemma {:induction false} FramesDecodeAfter(instructions: seq<Instruction>, rest: seq<Byte>, before: seq<Decoded>)
    requires forall i <- instructions :: Sendable(i)
    requires !Receiver([], before).Dead()
    ensures Drain(Receiver(Frames(instructions) + rest, before)) ==
            Drain(Receiver(rest, before + Requests(instructions)))
    decreases |instructions|
  {
    if instructions == [] {
      assert [] + rest == rest;
      assert before + Requests([]) == before;
    } else {
      hide Frame, DecodeFrame, Request, Sendable;
      var i, later := instructions[0], instructions[1..];
      var tail := Frames(later) + rest;
      assert Frames(instructions) + rest == Frame(i) + tail;
      DrainFrame(i, tail, before);
      FramesDecodeAfter(later, rest, before + [Event(Request(i))]);
      RequestsStep(instructions, before);
    }
  }

  /** Any stream of sendable instructions is decoded to exactly its requests, in whatever
      chunks it arrives, with nothing left over. */
  lemma InstructionRoundTrip(instructions: seq<Instruction>, chunks: seq<seq<Byte>>)
    requires forall i <- instructions :: Sendable(i)
    requires Flatten(chunks) == Frames(instructions)
    ensures ReceiveAll(START, chunks) == Receiver([], Requests(instructions))
  {
    ChunkingIndependence(chunks);
    FramesDecodeAfter(instructions, [], []);
    assert Frames(instructions) + [] == [] + Frames(instructions);
    assert [] + Requests(instructions) == Requests(instructions);
  }

  lemma {:induction false} DrainOnlyAdds(r: Receiver)
    ensures |Drain(r).outcomes| >= |r.outcomes|
    decreases |r.buffer|
  {
    if !r.Dead() {
      var (decoded, rest) := DecodeFrame(r.buffer);
      if !decoded.Incomplete? && !decoded.Panicked? {
        DrainOnlyAdds(Receiver(rest, r.outcomes + [decoded]));
      }
    }
  }

  /** A single frame carries its instruction exactly when the instruction is sendable:
      an empty command is refused and a newline in the text cuts the frame. */
  lemma FrameCarriesIff(i: Instruction)
    ensures Receive(START, Frame(i)) == Receiver([], [Event(Request(i))]) <==> Sendable(i)
  {
    var b := Frame(i);
    assert [] + b == b;
    if Sendable(i) {
      InstructionRoundTrip([i], [b]);
      assert Frames([i]) == b + [] && Flatten([b]) == b + [];
      assert Receive(START, b) == ReceiveAll(START, [b]);
      assert Requests([i]) == [Event(Request(i))];
    } else if i == Com("") {
      EmptyCommandRefused();
    } else {
      CutFrame(i);
    }
  }

  lemma EmptyCommandRefused()
    ensures Receive(START, Frame(Com(""))) == Receiver([], [Failed(InvalidCall)])
  {
    hide Encode;
    var b := Frame(Com(""));
    EncodeEmpty();
    EncodeFour('c', 'o', 'm', ' ', "");
    assert "com " + "" == ['c', 'o', 'm', ' '] + "";
    assert b == [99, 111, 109, 32, 13, 10];
    IndexOfUnique(b, NEWLINE, 5);
    assert [] + b == b && b[6..] == [];
    assert IndexOf([], NEWLINE) == 0;
    assert Drain(Receiver([], [Failed(InvalidCall)])) == Receiver([], [Failed(InvalidCall)]);
  }

  lemma CutFrame(i: Instruction)
    requires (i.Com? && '\n' in i.command) || (i.Inp? && '\n' in i.input)
    ensures Receive(START, Frame(i)) != Receiver([], [Event(Request(i))])
  {
    hide Encode, Line, ParseArgument;
    var body := Encode(Line(i));
    LineWithoutNewline(i);
    NewlineCuts(body);
    assert [] + (body + CRLF) == body + CRLF;
    var (decoded, rest) := DecodeFrame(body + CRLF);
    if !decoded.Panicked? {
      DrainTwice(rest, decoded);
    }
  }

  lemma NewlineCuts(body: seq<Byte>)
    requires NEWLINE in body
    ensures var (decoded, rest) := DecodeFrame(body + CRLF);
            !decoded.Incomplete? && (decoded.Panicked? || NEWLINE in rest)
  {
    hide ParseArgument;
    var k := IndexOf(body, NEWLINE);
    var b := body + CRLF;
    assert body[..|body|] == body;
    assert b[..k] == body[..k];
    IndexOfUnique(b, NEWLINE, k);
    assert b[k + 1..] == body[k + 1..] + CRLF;
    assert CRLF[1] == NEWLINE;
  }

  lemma DrainTwice(rest: seq<Byte>, decoded: Decoded)
    requires NEWLINE in rest && !decoded.Panicked?
    ensures |Drain(Receiver(rest, [] + [decoded])).outcomes| >= 2
  {
    hide IndexOf, ParseArgument;
    var r := Receiver(rest, [] + [decoded]);
    var (next, more) := DecodeFrame(rest);
    if !next.Panicked? {
      DrainOnlyAdds(Receiver(more, r.outcomes + [next]));
    }
  }
}
