/** The server's replies and the client's reading of them. */
module Replies {
  import opened Wrappers
  import opened Utf8
  import opened Escaping
  import Codec
  import Decimal

  const NEWLINE := Codec.NEWLINE

  datatype ResponseEvent =
    | Error(id: Decimal.Usize, text: string)
    | Output(jid: Decimal.Usize, status: Decimal.U8, stdout: string, stderr: string)
    | Info(info: string)

  function StatusLine(jid: Decimal.Usize, status: Decimal.U8): string {
    Decimal.ToString(jid) + (" " + Decimal.ToString(status))
  }

  function Shown(response: ResponseEvent): string {
    match response
    case Error(id, text) => "ERR " + Decimal.ToString(id) + " " + Escaped(text)
    case Output(jid, status, stdout, stderr) =>
      StatusLine(jid, status) + ("\n" + (Escaped(stdout) + ("\n" + Escaped(stderr))))
    case Info(info) => info
  }

  function EncodeReply(response: ResponseEvent): seq<Byte> {
    Encode(Shown(response)) + [NEWLINE]
  }

  method EncodeInto(response: ResponseEvent, buf: Codec.BytesMut)
    modifies buf
    ensures buf.data == old(buf.data) + EncodeReply(response)
  {
    buf.Extend(Encode(Shown(response)));
    buf.Extend([NEWLINE]);
  }

  // ---------- The client's side ----------

  datatype ReadError = BadUtf8 | InvalidStatusLine | NotANumber

  datatype Reply = Reply(jid: Decimal.Usize, status: Decimal.U8, stdout: string, stderr: string)

  /** `read_line`: the bytes up to and including the next newline, or all there are. */
  function LineOf(stream: seq<Byte>): seq<Byte> {
    var i := Codec.IndexOf(stream, NEWLINE);
    if i == |stream| then stream else stream[..i + 1]
  }

  function AfterLine(stream: seq<Byte>): seq<Byte> {
    stream[|LineOf(stream)|..]
  }

  function Pop(s: string): string {
    if s == "" then "" else s[..|s| - 1]
  }

  /** `find(' ')`: the first space, or |s|. */
  function FindSpace(s: string): (i: nat)
    ensures i <= |s|
    ensures forall k | 0 <= k < i :: s[k] != ' '
    ensures i < |s| ==> s[i] == ' '
  {
    if s == "" || s[0] == ' ' then 0 else 1 + FindSpace(s[1..])
  }

  function ParseStatus(status: string): Result<(Decimal.Usize, Decimal.U8), ReadError> {
    var pos := FindSpace(status);
    if pos == |status| then Err(InvalidStatusLine) else
    match (Decimal.Parse(status[..pos], Decimal.USIZE_MAX), Decimal.Parse(status[pos + 1..], Decimal.U8_MAX))
    case (Some(jid), Some(code)) => Ok((jid, code))
    case _ => Err(NotANumber)
  }

  /** Reads the three lines of a result and makes the reply they stand for. */
  function ReadReply(stream: seq<Byte>): Result<Reply, ReadError> {
    var second := AfterLine(stream);
    var third := AfterLine(second);
    match (Decode(LineOf(stream)), Decode(LineOf(second)), Decode(LineOf(third)))
    case (Some(status), Some(out), Some(err)) =>
      (match ParseStatus(Pop(status))
       case Err(e) => Err(e)
       case Ok((jid, code)) => Ok(Reply(jid, code, Unescaped(Pop(out)), Unescaped(Pop(err)))))
    case _ => Err(BadUtf8)
  }

  /** How many bytes of the stream reading a reply takes: a line that is not valid UTF-8 is the last. */
  function ReplyLength(stream: seq<Byte>): (n: nat)
    ensures n <= |stream|
  {
    var second := AfterLine(stream);
    var third := AfterLine(second);
    if Decode(LineOf(stream)).None? then |LineOf(stream)|
    else if Decode(LineOf(second)).None? then |LineOf(stream)| + |LineOf(second)|
    else |LineOf(stream)| + |LineOf(second)| + |LineOf(third)|
  }

  /** A number sent as `Info`: the last byte is cut off without a check, which panics on a closed
      connection, and on a line that ends inside a character. */
  datatype NumberReply = Number(n: Decimal.Usize) | NotNumber | Panicked

  function ReadNumber(line: string): NumberReply {
    if line == "" || line[|line| - 1] as int >= 0x80 then Panicked
    else match Decimal.Parse(line[..|line| - 1], Decimal.USIZE_MAX)
         case None => NotNumber
         case Some(n) => Number(n)
  }

  // ---------- Round trips ----------

  lemma EncodeNewline(rest: string)
    ensures Encode("\n" + rest) == [NEWLINE] + Encode(rest)
  {
    assert ("\n" + rest)[1..] == rest;
    assert EncodeChar('\n') == [NEWLINE];
  }

  lemma EncodeLine(line: string, rest: string)
    ensures Encode(line + ("\n" + rest)) == Encode(line) + [NEWLINE] + Encode(rest)
  {
    hide Encode;
    EncodeConcat(line, "\n" + rest);
    EncodeNewline(rest);
  }

  lemma StatusLineHasNoNewline(jid: Decimal.Usize, status: Decimal.U8)
    ensures '\n' !in StatusLine(jid, status)
  {
  }

  /** A result is three lines, each ended by the only newline in it. */
  lemma ResultIsThreeLines(jid: Decimal.Usize, status: Decimal.U8, stdout: string, stderr: string)
    ensures EncodeReply(Output(jid, status, stdout, stderr)) ==
            (Encode(StatusLine(jid, status)) + [NEWLINE]) +
            ((Encode(Escaped(stdout)) + [NEWLINE]) + (Encode(Escaped(stderr)) + [NEWLINE]))
    ensures NEWLINE !in Encode(StatusLine(jid, status))
    ensures NEWLINE !in Encode(Escaped(stdout)) && NEWLINE !in Encode(Escaped(stderr))
  {
    hide Encode, Escaped, StatusLine;
    EncodeLine(StatusLine(jid, status), Escaped(stdout) + ("\n" + Escaped(stderr)));
    EncodeLine(Escaped(stdout), Escaped(stderr));
    StatusLineHasNoNewline(jid, status);
    EscapedHasNoNewline(stdout);
    EscapedHasNoNewline(stderr);
    AsciiOccurs(StatusLine(jid, status), '\n');
    AsciiOccurs(Escaped(stdout), '\n');
    AsciiOccurs(Escaped(stderr), '\n');
  }

  lemma LineRead(line: string, rest: seq<Byte>)
    requires NEWLINE !in Encode(line)
    ensures var stream := (Encode(line) + [NEWLINE]) + rest;
            LineOf(stream) == Encode(line + "\n") == Encode(line) + [NEWLINE] && AfterLine(stream) == rest
  {
    hide Encode;
    var body := Encode(line);
    var stream := (body + [NEWLINE]) + rest;
    assert stream[..|body|] == body;
    Codec.IndexOfUnique(stream, NEWLINE, |body|);
    assert stream[..|body| + 1] == body + [NEWLINE];
    EncodeLine(line, "");
    assert "\n" + "" == "\n";
    assert Encode("") == [] by { EncodeOfNothing(); }
  }

  lemma EncodeOfNothing()
    ensures Encode("") == []
  {
  }

  lemma DecodedLine(line: string)
    ensures Decode(Encode(line + "\n")) == Some(line + "\n") && Pop(line + "\n") == line
  {
    DecodeEncode(line + "\n");
  }

  lemma StatusParses(jid: Decimal.Usize, status: Decimal.U8)
    ensures ParseStatus(StatusLine(jid, status)) == Ok((jid, status))
  {
    hide Decimal.ToString, Decimal.Parse, FindSpace;
    var line := StatusLine(jid, status);
    var digits := Decimal.ToString(jid);
    var pos := FindSpace(line);
    assert line[|digits|] == ' ';
    assert pos == |digits| by {
      assert forall k | 0 <= k < |digits| :: Decimal.IsDigit(digits[k]) && line[k] == digits[k];
    }
    assert line[..pos] == digits && line[pos + 1..] == Decimal.ToString(status);
    Decimal.ParseToString(jid, Decimal.USIZE_MAX);
    Decimal.ParseToString(status, Decimal.U8_MAX);
  }

  /** The three lines of a result are read and no more; job id and status come back as they were,
      the captured text as escaping lets it. */
  lemma ReplyRead(jid: Decimal.Usize, status: Decimal.U8, stdout: string, stderr: string, tail: seq<Byte>)
    ensures var stream := EncodeReply(Output(jid, status, stdout, stderr)) + tail;
            && ReadReply(stream) == Ok(Reply(jid, status, Unescaped(Escaped(stdout)), Unescaped(Escaped(stderr))))
            && ReplyLength(stream) == |EncodeReply(Output(jid, status, stdout, stderr))|
  {
    hide Encode, Decode, Escaped, Unescaped, StatusLine, LineOf, AfterLine, ParseStatus, Pop, EncodeReply;
    var first, second, third := StatusLine(jid, status), Escaped(stdout), Escaped(stderr);
    var a, b, c := Encode(first) + [NEWLINE], Encode(second) + [NEWLINE], Encode(third) + [NEWLINE];
    ResultIsThreeLines(jid, status, stdout, stderr);
    var stream := EncodeReply(Output(jid, status, stdout, stderr)) + tail;
    assert stream == a + (b + (c + tail));
    LineRead(first, b + (c + tail));
    LineRead(second, c + tail);
    LineRead(third, tail);
    DecodedLine(first);
    DecodedLine(second);
    DecodedLine(third);
    StatusParses(jid, status);
  }

  /** A result comes back as it was sent exactly when both captured streams are transparent. */
  lemma ReplyRoundTrip(jid: Decimal.Usize, status: Decimal.U8, stdout: string, stderr: string)
    ensures ReadReply(EncodeReply(Output(jid, status, stdout, stderr))) == Ok(Reply(jid, status, stdout, stderr))
            <==> Transparent(stdout) && Transparent(stderr)
  {
    hide ReadReply, EncodeReply, Escaped, Unescaped;
    var reply := EncodeReply(Output(jid, status, stdout, stderr));
    ReplyRead(jid, status, stdout, stderr, []);
    assert reply + [] == reply;
    UnescapeEscape(stdout);
    UnescapeEscape(stderr);
  }

  /** A number sent by the server is the number the client gets. */
  lemma NumberRoundTrip(n: Decimal.Usize)
    ensures var line := LineOf(EncodeReply(Info(Decimal.ToString(n))));
            Decode(line).Some? && ReadNumber(Decode(line).value) == Number(n)
  {
    hide Encode, Decode, LineOf;
    var digits := Decimal.ToString(n);
    assert '\n' !in digits;
    AsciiOccurs(digits, '\n');
    LineRead(digits, []);
    assert (Encode(digits) + [NEWLINE]) + [] == Encode(digits) + [NEWLINE];
    DecodedLine(digits);
    Decimal.ParseToString(n, Decimal.USIZE_MAX);
  }

  // ---------- What counts as a result ----------

  /** The stream's first line: it has no newline but at its end, and has one there unless it is all. */
  predicate IsFirstLine(stream: seq<Byte>, line: seq<Byte>) {
    && line <= stream
    && (forall k | 0 <= k < |line| - 1 :: line[k] != NEWLINE)
    && (line == stream || (line != [] && line[|line| - 1] == NEWLINE))
  }

  lemma LineOfIff(stream: seq<Byte>, line: seq<Byte>)
    ensures LineOf(stream) == line <==> IsFirstLine(stream, line)
  {
    var i := Codec.IndexOf(stream, NEWLINE);
    assert forall k | 0 <= k < i :: stream[k] == stream[..i][k];
    if IsFirstLine(stream, line) && line != [] {
      var last := |line| - 1;
      assert stream[..last + 1] == line;
      assert forall k | 0 <= k < last :: stream[k] == line[k];
      if line[last] == NEWLINE {
        Codec.IndexOfUnique(stream, NEWLINE, last);
      } else {
        Codec.IndexOfUnique(stream, NEWLINE, |stream|);
      }
    }
  }

  /** The line is this text and one more character, or there is no line and no text. */
  ghost predicate IsCut(line: seq<Byte>, text: string) {
    if line == [] then text == "" else exists c :: line == Encode(text + [c])
  }

  lemma CutIff(line: seq<Byte>, text: string)
    ensures Decode(line).Some? && Pop(Decode(line).value) == text <==> IsCut(line, text)
  {
    hide Encode, Decode;
    assert Decode([]) == Some("") by { EncodeOfNothing(); DecodeEncode(""); }
    if Decode(line).Some? && Pop(Decode(line).value) == text {
      var whole := Decode(line).value;
      DecodeIff(line, whole);
      if line != [] {
        assert whole != "" by { EncodeOfNothing(); }
        assert whole == text + [whole[|text|]];
      }
    }
    forall c | line == Encode(text + [c])
      ensures Decode(line) == Some(text + [c]) && Pop(text + [c]) == text
    {
      DecodeEncode(text + [c]);
    }
  }

  /** A numeral, one space, a numeral. */
  predicate IsStatus(text: string, jid: nat, status: nat) {
    exists p | 0 <= p < |text| && text[p] == ' ' ::
      Decimal.Denotes(text[..p], jid) && Decimal.Denotes(text[p + 1..], status)
  }

  lemma ParseStatusIff(text: string, jid: Decimal.Usize, status: Decimal.U8)
    ensures ParseStatus(text) == Ok((jid, status)) <==> IsStatus(text, jid, status)
  {
    hide Decimal.Parse;
    var pos := FindSpace(text);
    if pos < |text| {
      Decimal.ParseIff(text[..pos], jid, Decimal.USIZE_MAX);
      Decimal.ParseIff(text[pos + 1..], status, Decimal.U8_MAX);
    }
    forall p | 0 <= p < |text| && text[p] == ' ' && Decimal.Denotes(text[..p], jid)
      ensures p == pos
    {
      Decimal.NumeralHasNoSpace(text[..p], jid);
      assert forall k | 0 <= k < p :: text[k] == text[..p][k];
    }
  }

  /** Three lines of text: the first a status line, the others escaped captures. */
  ghost predicate IsResult(stream: seq<Byte>, reply: Reply) {
    exists a, b, c, status, out, err ::
      && Lines(stream, a, b, c) && IsCut(a, status) && IsCut(b, out) && IsCut(c, err)
      && IsStatus(status, reply.jid, reply.status)
      && reply.stdout == Unescaped(out) && reply.stderr == Unescaped(err)
  }

  predicate Lines(stream: seq<Byte>, a: seq<Byte>, b: seq<Byte>, c: seq<Byte>) {
    IsFirstLine(stream, a) && IsFirstLine(stream[|a|..], b) && IsFirstLine(stream[|a|..][|b|..], c)
  }

  lemma LinesIff(stream: seq<Byte>, a: seq<Byte>, b: seq<Byte>, c: seq<Byte>)
    ensures Lines(stream, a, b, c) <==>
            a == LineOf(stream) && b == LineOf(AfterLine(stream)) && c == LineOf(AfterLine(AfterLine(stream)))
  {
    hide LineOf, IsFirstLine;
    LineOfIff(stream, a);
    if a == LineOf(stream) {
      assert a <= stream by { LineOfPrefix(stream); }
      LineOfIff(stream[|a|..], b);
      if b == LineOf(stream[|a|..]) {
        assert b <= stream[|a|..] by { LineOfPrefix(stream[|a|..]); }
        LineOfIff(stream[|a|..][|b|..], c);
      }
    }
  }

  lemma LineOfPrefix(stream: seq<Byte>)
    ensures LineOf(stream) <= stream
  {
  }

  /** A stream is read as a reply exactly when it begins with the three lines of one. */
  lemma ReadReplyIff(stream: seq<Byte>, reply: Reply)
    ensures ReadReply(stream) == Ok(reply) <==> IsResult(stream, reply)
  {
    hide Encode, Decode, LineOf, AfterLine, ParseStatus, Pop, Unescaped, IsCut, IsStatus, Lines;
    var a, b, c := LineOf(stream), LineOf(AfterLine(stream)), LineOf(AfterLine(AfterLine(stream)));
    LinesIff(stream, a, b, c);
    if ReadReply(stream) == Ok(reply) {
      var status, out, err := Pop(Decode(a).value), Pop(Decode(b).value), Pop(Decode(c).value);
      CutIff(a, status);
      CutIff(b, out);
      CutIff(c, err);
      ParseStatusIff(status, reply.jid, reply.status);
    }
    forall x, y, z, status, out, err |
      Lines(stream, x, y, z) && IsCut(x, status) && IsCut(y, out) && IsCut(z, err) && IsStatus(status, reply.jid, reply.status)
      && reply.stdout == Unescaped(out) && reply.stderr == Unescaped(err)
      ensures ReadReply(stream) == Ok(reply)
    {
      LinesIff(stream, x, y, z);
      CutIff(a, status);
      CutIff(b, out);
      CutIff(c, err);
      ParseStatusIff(status, reply.jid, reply.status);
    }
  }

  /** A stream that ends before anything has come is refused. */
  lemma NothingIsNoReply()
    ensures ReadReply([]) == Err(InvalidStatusLine)
  {
  }

  /** Why a stream is refused: a line of the three is no text, the status line has no space, or what
      stands around its first space are not two numbers that fit. */
  lemma RefusedRepliesMean(stream: seq<Byte>, a: seq<Byte>, b: seq<Byte>, c: seq<Byte>)
    requires Lines(stream, a, b, c)
    ensures ReadReply(stream) == Err(BadUtf8) <==> !IsText(a) || !IsText(b) || !IsText(c)
    ensures ReadReply(stream) == Err(InvalidStatusLine) <==>
            IsText(b) && IsText(c) && exists status :: IsCut(a, status) && ' ' !in status
  {
    hide Encode, Decode, LineOf, AfterLine, FindSpace, Pop, Unescaped, IsCut, IsText, Lines;
    LinesIff(stream, a, b, c);
    TextIff(a);
    TextIff(b);
    TextIff(c);
    if Decode(a).Some? {
      var status := Pop(Decode(a).value);
      CutIff(a, status);
      var pos := FindSpace(status);
      assert pos == |status| <==> ' ' !in status;
    }
    forall status | IsCut(a, status)
      ensures Decode(a).Some? && Pop(Decode(a).value) == status
    {
      CutIff(a, status);
    }
  }

  /** A line that is no text is the last that is taken. */
  lemma ReplyLengthIs(stream: seq<Byte>, a: seq<Byte>, b: seq<Byte>, c: seq<Byte>)
    requires Lines(stream, a, b, c)
    ensures ReplyLength(stream) ==
            if !IsText(a) then |a| else if !IsText(b) then |a| + |b| else |a| + |b| + |c|
  {
    hide Encode, Decode, LineOf, IsText, Lines;
    LinesIff(stream, a, b, c);
    TextIff(a);
    TextIff(b);
  }

  ghost predicate IsText(line: seq<Byte>) {
    exists text :: line == Encode(text)
  }

  lemma TextIff(line: seq<Byte>)
    ensures IsText(line) <==> Decode(line).Some?
  {
    hide Encode, Decode;
    if Decode(line).Some? {
      DecodeIff(line, Decode(line).value);
    }
    forall text | line == Encode(text)
      ensures Decode(line) == Some(text)
    {
      DecodeEncode(text);
    }
  }

  /** What is read as a number is a numeral and one more ASCII character; without that character
      there is a panic. */
  lemma ReadNumberIff(line: string, n: Decimal.Usize)
    ensures ReadNumber(line) == Panicked <==> line == "" || line[|line| - 1] as int >= 0x80
    ensures ReadNumber(line) == Number(n) <==>
            exists text, c: char :: line == text + [c] && c as int < 0x80 && Decimal.Denotes(text, n)
  {
    hide Decimal.Parse, Decimal.Denotes;
    if line != "" {
      var text := line[..|line| - 1];
      Decimal.ParseIff(text, n, Decimal.USIZE_MAX);
      assert line == text + [line[|line| - 1]];
      assert forall t, c :: line == t + [c] ==> t == text && c == line[|line| - 1] by {
        forall t, c | line == t + [c]
          ensures t == text && c == line[|line| - 1]
        {
          assert (t + [c])[..|t|] == t;
        }
      }
    }
  }

  /** An error is one line. A client that waits for a result refuses it, with nothing after it. */
  lemma ErrorIsRefused(id: Decimal.Usize, text: string)
    ensures var sent := EncodeReply(Error(id, text));
            && ReadReply(sent) == Err(NotANumber)
            && LineOf(sent) == sent
  {
    hide Encode, Decode, Escaped, Decimal.ToString, Decimal.Parse, LineOf;
    var line := Shown(Error(id, text));
    EscapedHasNoNewline(text);
    assert '\n' !in Decimal.ToString(id);
    assert '\n' !in line;
    AsciiOccurs(line, '\n');
    LineRead(line, []);
    var sent := EncodeReply(Error(id, text));
    assert (Encode(line) + [NEWLINE]) + [] == sent;
    DecodedLine(line);
    assert line[..3] == "ERR" && line[3] == ' ';
    assert FindSpace(line) == 3;
    assert Decimal.Parse("ERR", Decimal.USIZE_MAX) == None by { NotANumeral(); }
    assert AfterLine([]) == [] && Decode(LineOf([])) == Some("") by { NothingIsText(); }
  }

  lemma NotANumeral()
    ensures Decimal.Parse("ERR", Decimal.USIZE_MAX) == None
  {
  }

  lemma NothingIsText()
    ensures AfterLine([]) == [] && Decode(LineOf([])) == Some("")
  {
  }

  /** Errors can be told apart by id and by text, as far as escaping keeps it. */
  lemma ErrorsDiffer(id: Decimal.Usize, text: string, other: Decimal.Usize, otherText: string)
    ensures EncodeReply(Error(id, text)) == EncodeReply(Error(other, otherText)) <==>
            id == other && Escaped(text) == Escaped(otherText)
  {
    hide Encode, Escaped, Decimal.ToString, Decimal.Parse;
    if EncodeReply(Error(id, text)) == EncodeReply(Error(other, otherText)) {
      var line, otherLine := Shown(Error(id, text)), Shown(Error(other, otherText));
      var encoded := EncodeReply(Error(id, text));
      assert encoded[..|encoded| - 1] == Encode(line) == Encode(otherLine);
      DecodeEncode(line);
      DecodeEncode(otherLine);
      NumberFirst("ERR ", id, Escaped(text), other, Escaped(otherText));
    }
  }

  lemma NumberFirst(word: string, n: Decimal.Usize, rest: string, m: Decimal.Usize, otherRest: string)
    requires word + Decimal.ToString(n) + " " + rest == word + Decimal.ToString(m) + " " + otherRest
    ensures n == m && rest == otherRest
  {
    hide Decimal.ToString, Decimal.Parse;
    var a, b := Decimal.ToString(n), Decimal.ToString(m);
    var whole := word + a + " " + rest;
    assert whole[|word|..] == a + (" " + rest) == b + (" " + otherRest);
    var tail := whole[|word|..];
    assert tail[|a|] == ' ' && tail[|b|] == ' ';
    assert forall k | 0 <= k < |a| :: tail[k] == a[k] && Decimal.IsDigit(a[k]);
    assert forall k | 0 <= k < |b| :: tail[k] == b[k] && Decimal.IsDigit(b[k]);
    assert |a| == |b|;
    assert a == tail[..|a|] == b;
    assert rest == tail[|a| + 1..] == otherRest;
    Decimal.ParseToString(n, Decimal.USIZE_MAX);
    Decimal.ParseToString(m, Decimal.USIZE_MAX);
  }
}
