/** What a request looks like on the wire, and that the parser accepts exactly that. */
module Grammar {
  import opened Wrappers
  import opened Utf8
  import opened Codec
  import opened Instructions
  import opened Decimal

  // ---------- Requests as text ----------

  /** What a word and the text after it and one more byte ask for. */
  predicate Means(word: seq<Byte>, text: string, e: JobEvent) {
    match e
    case Command(command) => word == Encode("com") && text == command
    case Input(cid, jid, input) => word == Encode("inp") && InputText(text, cid, jid, input)
    case GetCommands => word == Encode("get") && text == "comms"
    case GetCores => word == Encode("get") && text == "cores"
    case StopJob(id) => word == Encode("del") && Denotes(text, id)
  }

  /** Two numerals with one space after each, and the input. */
  predicate InputText(text: string, cid: nat, jid: nat, input: string) {
    exists p, q {:trigger text[..p], text[p + 1..q]} |
      0 <= p && p + 1 <= q < |text| && text[p] == ' ' && text[q] == ' ' ::
      Denotes(text[..p], cid) && Denotes(text[p + 1..q], jid) && text[q + 1..] == input
  }

  /** A word of three bytes, any byte, and a text. */
  ghost predicate Spells(b: seq<Byte>, e: JobEvent) {
    |b| >= 5 && exists text :: b[4..] == Encode(text) && Means(b[..3], text, e)
  }

  // ---------- The parser ----------

  lemma WordBytes()
    ensures COM == Encode("com") && INP == Encode("inp") && GET == Encode("get") && DEL == Encode("del")
    ensures COMMS == Encode("comms") && CORES == Encode("cores")
  {
    hide Encode;
    assert Encode("") == [] by { EncodeEmpty(); }
    ThreeEncoded('c', 'o', 'm');
    ThreeEncoded('i', 'n', 'p');
    ThreeEncoded('g', 'e', 't');
    ThreeEncoded('d', 'e', 'l');
    OptionsEncoded();
  }

  lemma ThreeEncoded(a: char, b: char, c: char)
    requires a as int < 128 && b as int < 128 && c as int < 128
    ensures Encode([a, b, c]) == [a as int, b as int, c as int]
  {
    hide Encode;
    assert Encode("") == [] by { EncodeEmpty(); }
    EncodeAscii(c, "");
    EncodeAscii(b, [c]);
    EncodeAscii(a, [b, c]);
    assert [a, b, c] == [a] + [b, c] && [b, c] == [b] + [c] && [c] == [c] + "";
  }

  lemma ParseUsizeIff(b: seq<Byte>, n: Usize)
    ensures ParseUsize(b) == Ok(n) <==> exists text :: b == Encode(text) && Denotes(text, n)
  {
    hide Encode, Decode, Parse, Denotes;
    if Decode(b).Some? {
      DecodeIff(b, Decode(b).value);
      ParseIff(Decode(b).value, n, USIZE_MAX);
    }
    forall text | b == Encode(text) && Denotes(text, n)
      ensures ParseUsize(b) == Ok(n)
    {
      DecodeIff(b, text);
      ParseIff(text, n, USIZE_MAX);
    }
  }

  lemma NumeralBytes(text: string, n: nat)
    requires Denotes(text, n)
    ensures SPACE !in Encode(text)
  {
    hide Encode;
    NumeralHasNoSpace(text, n);
    AsciiOccurs(text, ' ');
  }

  lemma EncodedAround(a: string, c: string)
    ensures Encode(a + (" " + c)) == Encode(a) + ([SPACE] + Encode(c))
  {
    hide Encode;
    EncodeConcat(a, " " + c);
    EncodeAscii(' ', c);
  }

  lemma InputTextParts(text: string, p: nat, q: nat)
    requires p + 1 <= q < |text| && text[p] == ' ' && text[q] == ' '
    ensures text == text[..p] + (" " + (text[p + 1..q] + (" " + text[q + 1..])))
  {
  }

  lemma InputTextJoined(first: string, second: string, cid: nat, jid: nat, input: string)
    requires Denotes(first, cid) && Denotes(second, jid)
    ensures InputText(first + (" " + (second + (" " + input))), cid, jid, input)
  {
    hide Denotes;
    var text := first + (" " + (second + (" " + input)));
    var p, q := |first|, |first| + 1 + |second|;
    assert text[..p] == first && text[p + 1..q] == second && text[q + 1..] == input;
    assert text[p] == ' ' && text[q] == ' ';
  }

  lemma FieldsParse(first: string, second: string, cid: Usize, jid: Usize, input: string)
    requires Denotes(first, cid) && Denotes(second, jid)
    ensures ParseInput(Encode(first + (" " + (second + (" " + input))))) == Ok(Input(cid, jid, input))
  {
    hide Encode, Decode, IndexOf, ParseUsize, Denotes;
    var rest := second + (" " + input);
    EncodedAround(first, rest);
    EncodedAround(second, input);
    NumeralBytes(first, cid);
    NumeralBytes(second, jid);
    FieldEnds(Encode(first), Encode(rest));
    FieldEnds(Encode(second), Encode(input));
    ParseUsizeIff(Encode(first), cid);
    ParseUsizeIff(Encode(second), jid);
    DecodeEncode(input);
  }

  lemma ParsedParts(b: seq<Byte>, cid: Usize, jid: Usize, input: string) returns (i: nat, k: nat)
    requires ParseInput(b) == Ok(Input(cid, jid, input))
    ensures i < k < |b| && b[i] == SPACE && b[k] == SPACE
    ensures ParseUsize(b[..i]) == Ok(cid) && ParseUsize(b[i + 1..k]) == Ok(jid) && Decode(b[k + 1..]) == Some(input)
  {
    hide Decode, IndexOf, ParseUsize;
    i := IndexOf(b, SPACE);
    var rest := b[i + 1..];
    k := i + 1 + IndexOf(rest, SPACE);
    assert rest[..k - i - 1] == b[i + 1..k] && rest[k - i..] == b[k + 1..];
  }

  lemma ParsedFields(b: seq<Byte>, cid: Usize, jid: Usize, input: string) returns (text: string)
    requires ParseInput(b) == Ok(Input(cid, jid, input))
    ensures b == Encode(text) && InputText(text, cid, jid, input)
  {
    hide Encode, Decode, ParseInput, ParseUsize, Denotes, InputText;
    var i, k := ParsedParts(b, cid, jid, input);
    ParseUsizeIff(b[..i], cid);
    ParseUsizeIff(b[i + 1..k], jid);
    DecodeIff(b[k + 1..], input);
    var first :| b[..i] == Encode(first) && Denotes(first, cid);
    var second :| b[i + 1..k] == Encode(second) && Denotes(second, jid);
    assert b == b[..i] + ([SPACE] + (b[i + 1..k] + ([SPACE] + b[k + 1..])));
    text := first + (" " + (second + (" " + input)));
    EncodedAround(first, second + (" " + input));
    EncodedAround(second, input);
    InputTextJoined(first, second, cid, jid, input);
  }

  lemma ParseInputIff(b: seq<Byte>, e: JobEvent)
    ensures ParseInput(b) == Ok(e) <==>
            e.Input? && exists text :: b == Encode(text) && InputText(text, e.cid, e.jid, e.input)
  {
    hide Encode, Denotes;
    if ParseInput(b) == Ok(e) {
      assert e.Input? by { ParsedIsInput(b); }
      var text := ParsedFields(b, e.cid, e.jid, e.input);
    }
    if e.Input? {
      forall text | b == Encode(text) && InputText(text, e.cid, e.jid, e.input)
        ensures ParseInput(b) == Ok(e)
      {
        var p, q :| 0 <= p && p + 1 <= q < |text| && text[p] == ' ' && text[q] == ' '
                    && Denotes(text[..p], e.cid) && Denotes(text[p + 1..q], e.jid) && text[q + 1..] == e.input;
        InputTextParts(text, p, q);
        FieldsParse(text[..p], text[p + 1..q], e.cid, e.jid, e.input);
      }
    }
  }

  lemma ParsedIsInput(b: seq<Byte>)
    ensures ParseInput(b).Ok? ==> ParseInput(b).value.Input?
  {
    hide Decode, IndexOf, ParseUsize;
  }

  /** The parser makes a request of an argument exactly when that spells the request. */
  lemma ParseArgumentIff(b: seq<Byte>, e: JobEvent)
    ensures ParseArgument(b) == Ok(e) <==> Spells(b, e)
  {
    hide Encode, Decode, ParseUsize, ParseInput, Denotes, InputText;
    WordBytes();
    WordsDiffer();
    if |b| >= 5 {
      var rest := b[4..];
      ParseInputIff(rest, e);
      match e
      case Command(command) => DecodeIff(rest, command);
      case StopJob(id) => ParseUsizeIff(rest, id);
      case _ =>
    }
  }

  // ---------- The decoder ----------

  /** A call yields a request exactly when the buffer holds its spelling, one more byte and a
      newline before all else. */
  lemma EventIff(buffer: seq<Byte>, e: JobEvent, rest: seq<Byte>)
    ensures DecodeFrame(buffer) == (Event(e), rest) <==>
            exists frame, last: Byte ::
              buffer == frame + [last, NEWLINE] + rest && NEWLINE !in frame && last != NEWLINE && Spells(frame, e)
  {
    hide ParseArgument, Spells, IndexOf;
    if DecodeFrame(buffer) == (Event(e), rest) {
      var i := IndexOf(buffer, NEWLINE);
      var frame, last := buffer[..i - 1], buffer[i - 1];
      ParseArgumentIff(frame, e);
      assert forall k | 0 <= k < i :: buffer[k] == buffer[..i][k];
      assert buffer == frame + [last, NEWLINE] + rest;
    }
    forall frame, last: Byte | buffer == frame + [last, NEWLINE] + rest && NEWLINE !in frame && last != NEWLINE && Spells(frame, e)
      ensures DecodeFrame(buffer) == (Event(e), rest)
    {
      var i := |frame| + 1;
      ParseArgumentIff(frame, e);
      assert buffer[..i] == frame + [last] && buffer[..i - 1] == frame && buffer[i] == NEWLINE;
      IndexOfUnique(buffer, NEWLINE, i);
      assert buffer[i + 1..] == rest;
    }
  }

  /** A frame that spells no request is taken like any other, and refused for what is wrong with it. */
  lemma FailedIff(frame: seq<Byte>, last: Byte, rest: seq<Byte>, error: DecodeError)
    requires NEWLINE !in frame && last != NEWLINE
    ensures DecodeFrame(frame + [last, NEWLINE] + rest) == (Failed(error), rest) <==> ParseArgument(frame) == Err(error)
    ensures (forall e :: !Spells(frame, e)) ==>
              DecodeFrame(frame + [last, NEWLINE] + rest).0.Failed? && DecodeFrame(frame + [last, NEWLINE] + rest).1 == rest
  {
    hide ParseArgument, Spells, IndexOf;
    var buffer := frame + [last, NEWLINE] + rest;
    var i := |frame| + 1;
    assert buffer[..i] == frame + [last] && buffer[..i - 1] == frame && buffer[i] == NEWLINE;
    IndexOfUnique(buffer, NEWLINE, i);
    assert buffer[i + 1..] == rest;
    if ParseArgument(frame).Ok? {
      ParseArgumentIff(frame, ParseArgument(frame).value);
    }
  }

  /** The other outcomes of a call: nothing without a newline, a panic if one comes first. */
  lemma NoEventIff(buffer: seq<Byte>)
    ensures DecodeFrame(buffer).0.Incomplete? <==> NEWLINE !in buffer
    ensures DecodeFrame(buffer).0.Panicked? <==> buffer != [] && buffer[0] == NEWLINE
  {
    hide ParseArgument, IndexOf;
    var i := IndexOf(buffer, NEWLINE);
    assert buffer[..|buffer|] == buffer;
    assert i > 0 ==> buffer[..i][0] == buffer[0];
  }

  /** What each refusal says of the argument. */
  lemma RefusalsMean(b: seq<Byte>)
    ensures ParseArgument(b) == Err(InvalidCall) <==> |b| < 5
    ensures ParseArgument(b) == Err(InvalidInstruction) <==>
            |b| >= 5 && b[..3] !in {Encode("com"), Encode("inp"), Encode("get"), Encode("del")}
    ensures ParseArgument(b) == Err(Unsupported) <==>
            |b| >= 5 && b[..3] == Encode("get") && b[4..] !in {Encode("comms"), Encode("cores")}
    ensures ParseArgument(b) == Err(NotEnoughArguments) ==>
              b[..3] == Encode("inp") && forall p, q | 4 <= p < q < |b| :: b[p] != SPACE || b[q] != SPACE
    ensures ParseArgument(b) == Err(InvalidUtf8) ==> forall text :: b[4..] != Encode(text)
    ensures |b| >= 5 && b[..3] == Encode("del") && ParseArgument(b) == Err(NotANumber) ==>
              exists text :: b[4..] == Encode(text) && forall n: Usize :: !Denotes(text, n)
  {
    hide Encode, Decode, ParseUsize, ParseInput, Denotes;
    WordBytes();
    WordsDiffer();
    if |b| >= 5 {
      var rest := b[4..];
      InputRefusals(rest);
      UsizeRefusals(rest);
      forall text | rest == Encode(text)
        ensures Decode(rest) == Some(text)
      {
        DecodeIff(rest, text);
      }
      assert forall p | 4 <= p < |b| :: b[p] == rest[p - 4];
    }
  }

  lemma UsizeRefusals(b: seq<Byte>)
    ensures ParseUsize(b).Err? ==> ParseUsize(b).error in {InvalidUtf8, NotANumber}
    ensures ParseUsize(b) == Err(InvalidUtf8) <==> Decode(b).None?
    ensures ParseUsize(b) == Err(NotANumber) ==>
              exists text :: b == Encode(text) && forall n: Usize :: !Denotes(text, n)
  {
    hide Encode, Decode, Parse, Denotes;
    if Decode(b).Some? {
      var text := Decode(b).value;
      DecodeIff(b, text);
      forall n: Usize
        ensures Denotes(text, n) ==> Parse(text, USIZE_MAX) == Some(n)
      {
        ParseIff(text, n, USIZE_MAX);
      }
    }
  }

  /** A field of a text that is cut at a space is a text. */
  lemma FieldsAreTexts(b: seq<Byte>, i: nat)
    requires Decode(b).Some? && i < |b| && b[i] == SPACE && SPACE !in b[..i]
    ensures Decode(b[..i]).Some? && Decode(b[i + 1..]).Some?
  {
    hide Encode, Decode;
    var text := Decode(b).value;
    DecodeIff(b, text);
    AsciiOccurs(text, ' ');
    assert SPACE in b;
    var p := FirstSpace(text);
    var first, rest := text[..p], text[p + 1..];
    assert text == first + (" " + rest);
    EncodedAround(first, rest);
    AsciiOccurs(first, ' ');
    FieldEnds(Encode(first), Encode(rest));
    IndexOfUnique(b, SPACE, i);
    DecodeEncode(first);
    DecodeEncode(rest);
  }

  lemma FirstSpace(text: string) returns (p: nat)
    requires ' ' in text
    ensures p < |text| && text[p] == ' ' && ' ' !in text[..p]
  {
    p := 0;
    while text[p] != ' '
      invariant p < |text| && ' ' !in text[..p] && ' ' in text[p..]
      decreases |text| - p
    {
      assert text[p..] == [text[p]] + text[p + 1..];
      assert text[..p + 1] == text[..p] + [text[p]];
      p := p + 1;
    }
  }

  /** Without two spaces there are not enough arguments. */
  lemma SpacesMissing(b: seq<Byte>)
    ensures ParseInput(b) == Err(NotEnoughArguments) ==> forall p, q | 0 <= p < q < |b| :: b[p] != SPACE || b[q] != SPACE
  {
    hide Decode, IndexOf, ParseUsize;
    var i := IndexOf(b, SPACE);
    assert b[..|b|] == b;
    assert forall p | 0 <= p < i :: b[p] == b[..i][p];
    if i < |b| {
      var rest := b[i + 1..];
      UsizeRefusals(b[..i]);
      UsizeRefusals(rest[..IndexOf(rest, SPACE)]);
      assert rest[..|rest|] == rest;
      assert forall p | i < p < |b| :: b[p] == rest[p - i - 1];
    }
  }

  lemma InputIsText(b: seq<Byte>)
    requires Decode(b).Some?
    ensures ParseInput(b) != Err(InvalidUtf8)
  {
    hide Decode, IndexOf, ParseUsize;
    var i := IndexOf(b, SPACE);
    if i < |b| {
      var rest := b[i + 1..];
      var k := IndexOf(rest, SPACE);
      FieldsAreTexts(b, i);
      UsizeRefusals(b[..i]);
      UsizeRefusals(rest[..k]);
      if k < |rest| {
        FieldsAreTexts(rest, k);
      }
    }
  }

  lemma InputRefusals(b: seq<Byte>)
    ensures ParseInput(b).Err? ==> ParseInput(b).error in {NotEnoughArguments, InvalidUtf8, NotANumber}
    ensures ParseInput(b) == Err(NotEnoughArguments) ==> forall p, q | 0 <= p < q < |b| :: b[p] != SPACE || b[q] != SPACE
    ensures ParseInput(b) == Err(InvalidUtf8) ==> Decode(b).None?
  {
    hide Decode, IndexOf, ParseUsize, ParseInput;
    SpacesMissing(b);
    if Decode(b).Some? {
      InputIsText(b);
    }
    InputErrors(b);
  }

  lemma InputErrors(b: seq<Byte>)
    ensures ParseInput(b).Err? ==> ParseInput(b).error in {NotEnoughArguments, InvalidUtf8, NotANumber}
  {
    hide Decode, IndexOf, ParseUsize;
    var i := IndexOf(b, SPACE);
    if i < |b| {
      UsizeRefusals(b[..i]);
      UsizeRefusals(b[i + 1..][..IndexOf(b[i + 1..], SPACE)]);
    }
  }
}
