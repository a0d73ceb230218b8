/** The inputs in files and on standard input: which lines count, and what is taken of them. */
module Sources {
  import opened Wrappers
  import opened Jobs

  /** White space in the sense of `str::trim` (the Unicode property White_Space). */
  predicate IsWhitespace(c: char) {
    var v := c as int;
    || 9 <= v <= 13 || v == 32 || v == 0x85 || v == 0xA0 || v == 0x1680 || 0x2000 <= v <= 0x200A
    || v == 0x2028 || v == 0x2029 || v == 0x202F || v == 0x205F || v == 0x3000
  }

  function TrimLeft(s: string): string {
    if s != "" && IsWhitespace(s[0]) then TrimLeft(s[1..]) else s
  }

  function TrimRight(s: string): string {
    if s != "" && IsWhitespace(s[|s| - 1]) then TrimRight(s[..|s| - 1]) else s
  }

  function Trim(s: string): string {
    TrimRight(TrimLeft(s))
  }

  predicate IsInput(line: string) {
    line != "" && line[0] != '#'
  }

  /** The inputs in a source: its lines up to a read error, trimmed, without comments and blanks. */
  function Accepted(lines: seq<Option<string>>): seq<string> {
    if lines == [] || lines[0].None? then []
    else (if IsInput(Trim(lines[0].value)) then [Trim(lines[0].value)] else []) + Accepted(lines[1..])
  }

  function Numbered(inputs: seq<string>, first: nat): seq<Job> {
    seq(|inputs|, k requires 0 <= k < |inputs| => Job(first + k, inputs[k]))
  }

  lemma AcceptedStep(lines: seq<Option<string>>, i: nat, done: seq<string>)
    requires i < |lines|
    ensures lines[i].None? ==> done + Accepted(lines[i..]) == done
    ensures lines[i].Some? ==>
              var input := Trim(lines[i].value);
              done + Accepted(lines[i..]) == (if IsInput(input) then done + [input] else done) + Accepted(lines[i + 1..])
  {
    assert lines[i..][1..] == lines[i + 1..];
  }

  /** A file that cannot be opened contributes nothing. */
  function AcceptedFiles(files: seq<Option<seq<Option<string>>>>): seq<string> {
    if files == [] then []
    else (if files[0].Some? then Accepted(files[0].value) else []) + AcceptedFiles(files[1..])
  }

  lemma NumberedConcat(a: seq<string>, b: seq<string>)
    ensures Numbered(a + b, 0) == Numbered(a, 0) + Numbered(b, |a|)
  {
  }

  lemma {:induction false} TrimKeepsNewlinesOut(s: string)
    requires '\n' !in s
    ensures '\n' !in TrimLeft(s) && '\n' !in TrimRight(s)
  {
    if s != "" {
      TrimKeepsNewlinesOut(s[1..]);
      TrimKeepsNewlinesOut(s[..|s| - 1]);
    }
  }

  // ---------- What counts, character by character ----------

  lemma WhitespaceIs(c: char)
    ensures IsWhitespace(c) <==>
            c as int in {0x09, 0x0A, 0x0B, 0x0C, 0x0D, 0x20, 0x85, 0xA0, 0x1680,
                         0x2000, 0x2001, 0x2002, 0x2003, 0x2004, 0x2005, 0x2006, 0x2007, 0x2008, 0x2009, 0x200A,
                         0x2028, 0x2029, 0x202F, 0x205F, 0x3000}
  {
  }

  /** The line without the white space around is line[a..b], and that does not begin a comment. */
  predicate Gives(line: string, a: nat, b: nat) {
    && a < b <= |line| && !IsWhitespace(line[a]) && !IsWhitespace(line[b - 1]) && line[a] != '#'
    && (forall k | 0 <= k < a :: IsWhitespace(line[k])) && (forall k | b <= k < |line| :: IsWhitespace(line[k]))
  }

  predicate InputOf(line: string, input: string) {
    exists a: nat, b: nat | a < b <= |line| :: Gives(line, a, b) && input == line[a..b]
  }

  /** Something on the line is not white space, and the first such character is no comment sign. */
  predicate HasInput(line: string) {
    exists k | 0 <= k < |line| ::
      !IsWhitespace(line[k]) && line[k] != '#' && forall j | 0 <= j < k :: IsWhitespace(line[j])
  }

  lemma {:induction false} TrimLeftIs(s: string, a: nat)
    requires a <= |s| && (forall k | 0 <= k < a :: IsWhitespace(s[k])) && (a < |s| ==> !IsWhitespace(s[a]))
    ensures TrimLeft(s) == s[a..]
    decreases a
  {
    if a > 0 {
      TrimLeftIs(s[1..], a - 1);
    }
  }

  lemma {:induction false} TrimRightIs(s: string, b: nat)
    requires b <= |s| && (forall k | b <= k < |s| :: IsWhitespace(s[k])) && (b > 0 ==> !IsWhitespace(s[b - 1]))
    ensures TrimRight(s) == s[..b]
    decreases |s|
  {
    if b < |s| {
      TrimRightIs(s[..|s| - 1], b);
      assert s[..|s| - 1][..b] == s[..b];
    } else {
      assert s[..b] == s;
    }
  }

  /** The first and the last character of a line that are not white space. */
  lemma SpanOf(line: string) returns (a: nat, b: nat)
    ensures a <= b <= |line| && (a == b ==> a == |line|)
    ensures (forall k | 0 <= k < a :: IsWhitespace(line[k])) && (forall k | b <= k < |line| :: IsWhitespace(line[k]))
    ensures a < b ==> !IsWhitespace(line[a]) && !IsWhitespace(line[b - 1])
    ensures Trim(line) == line[a..b]
  {
    a, b := 0, |line|;
    while a < |line| && IsWhitespace(line[a])
      invariant a <= |line| && forall k | 0 <= k < a :: IsWhitespace(line[k])
    {
      a := a + 1;
    }
    while b > a && IsWhitespace(line[b - 1])
      invariant a <= b <= |line| && forall k | b <= k < |line| :: IsWhitespace(line[k])
      invariant b == a ==> a == |line|
    {
      b := b - 1;
    }
    TrimLeftIs(line, a);
    var rest := line[a..];
    assert forall k | 0 <= k < |rest| :: rest[k] == line[a + k];
    TrimRightIs(rest, b - a);
    assert rest[..b - a] == line[a..b];
  }

  /** What the code takes of a line is what the line gives. */
  lemma LineInput(line: string, input: string)
    ensures IsInput(Trim(line)) && input == Trim(line) <==> InputOf(line, input)
  {
    hide Trim;
    var a, b := SpanOf(line);
    forall x: nat, y: nat | Gives(line, x, y)
      ensures x == a && y == b
    {
      assert x < |line| && y - 1 < |line|;
    }
    if a < b {
      assert line[a..b][0] == line[a];
      assert Gives(line, a, b) <==> line[a] != '#';
    }
  }

  lemma LineHasInput(line: string)
    ensures IsInput(Trim(line)) <==> HasInput(line)
  {
    hide Trim;
    var a, b := SpanOf(line);
    if a < b {
      assert line[a..b][0] == line[a];
    }
  }

  // ---------- What is queued ----------

  /** Line `k` is read: no read error has come before it. */
  predicate Readable(lines: seq<Option<string>>, k: nat) {
    k < |lines| && forall j | 0 <= j <= k :: lines[j].Some?
  }

  /** The job's input is that of line `k`. */
  predicate TakenFrom(lines: seq<Option<string>>, k: nat, job: Job) {
    Readable(lines, k) && InputOf(lines[k].value, job.input)
  }

  predicate Counts(lines: seq<Option<string>>, k: nat) {
    Readable(lines, k) && HasInput(lines[k].value)
  }

  /** The jobs are those of lines ks[0] < ks[1] < ..., which are all that are read and have an
      input, and they have consecutive numbers. */
  ghost predicate Picks(lines: seq<Option<string>>, jobs: seq<Job>, first: nat, ks: seq<nat>) {
    && |ks| == |jobs|
    && (forall i, j | 0 <= i < j < |ks| :: ks[i] < ks[j])
    && (forall j | 0 <= j < |ks| :: TakenFrom(lines, ks[j], jobs[j]) && jobs[j].jid == first + j)
    && (forall k: nat | Counts(lines, k) :: k in ks)
  }

  ghost predicate QueuedFrom(lines: seq<Option<string>>, jobs: seq<Job>, first: nat) {
    exists ks :: Picks(lines, jobs, first, ks)
  }

  lemma NothingRead(lines: seq<Option<string>>, first: nat)
    requires lines == [] || lines[0].None?
    ensures Picks(lines, Numbered(Accepted(lines), first), first, [])
  {
    assert forall k: nat :: !Readable(lines, k);
  }

  lemma {:induction false} AcceptedPicks(lines: seq<Option<string>>, first: nat) returns (ks: seq<nat>)
    ensures Picks(lines, Numbered(Accepted(lines), first), first, ks)
  {
    hide Trim, IsInput, InputOf, HasInput, TakenFrom, Counts, Accepted, Numbered;
    if lines == [] || lines[0].None? {
      ks := [];
      NothingRead(lines, first);
    } else {
      var line := lines[0].value;
      LineInput(line, Trim(line));
      LineHasInput(line);
      AcceptedCons(lines, first);
      LineZero(lines);
      var n := if IsInput(Trim(line)) then 1 else 0;
      var more := AcceptedPicks(lines[1..], first + n);
      var later := seq(|more|, j requires 0 <= j < |more| => more[j] + 1);
      LaterLines(lines, first + n, Numbered(Accepted(lines[1..]), first + n), more, later);
      ks := if n == 1 then [0] + later else later;
    }
  }

  lemma LineShift(lines: seq<Option<string>>, k: nat, job: Job)
    requires lines != [] && lines[0].Some? && k > 0
    ensures TakenFrom(lines, k, job) <==> TakenFrom(lines[1..], k - 1, job)
    ensures Counts(lines, k) <==> Counts(lines[1..], k - 1)
  {
    hide InputOf, HasInput;
    ReadableShift(lines, k);
    assert k < |lines| ==> lines[k] == lines[1..][k - 1];
  }

  lemma LineZero(lines: seq<Option<string>>)
    requires lines != [] && lines[0].Some?
    ensures forall job: Job :: TakenFrom(lines, 0, job) <==> InputOf(lines[0].value, job.input)
    ensures Counts(lines, 0) <==> HasInput(lines[0].value)
  {
    hide InputOf, HasInput;
    assert Readable(lines, 0);
  }

  lemma LaterLines(lines: seq<Option<string>>, first: nat, jobs: seq<Job>, more: seq<nat>, later: seq<nat>)
    requires lines != [] && lines[0].Some? && Picks(lines[1..], jobs, first, more)
    requires |later| == |more| && forall j | 0 <= j < |more| :: later[j] == more[j] + 1
    ensures |jobs| == |later| && forall j | 0 <= j < |later| ::
              0 < later[j] && TakenFrom(lines, later[j], jobs[j]) && jobs[j].jid == first + j
    ensures forall i, j | 0 <= i < j < |later| :: later[i] < later[j]
    ensures forall k: nat | 0 < k && Counts(lines, k) :: k in later
  {
    hide TakenFrom, Counts;
    forall j | 0 <= j < |later|
      ensures 0 < later[j] && TakenFrom(lines, later[j], jobs[j]) && jobs[j].jid == first + j
    {
      assert TakenFrom(lines[1..], more[j], jobs[j]);
      LineShift(lines, later[j], jobs[j]);
    }
    forall k: nat | 0 < k && Counts(lines, k)
      ensures k in later
    {
      LineShift(lines, k, Job(0, ""));
      assert k - 1 in more;
      var i :| 0 <= i < |more| && more[i] == k - 1;
      assert later[i] == k;
    }
  }

  lemma AcceptedCons(lines: seq<Option<string>>, first: nat)
    requires lines != [] && lines[0].Some?
    ensures var input := Trim(lines[0].value);
            Numbered(Accepted(lines), first) ==
            if IsInput(input) then [Job(first, input)] + Numbered(Accepted(lines[1..]), first + 1)
            else Numbered(Accepted(lines[1..]), first)
  {
    hide Trim, IsInput, Numbered;
    var input, rest := Trim(lines[0].value), Accepted(lines[1..]);
    NumberedCons(input, rest, first);
    assert [] + rest == rest;
  }

  lemma NumberedCons(input: string, rest: seq<string>, first: nat)
    ensures Numbered([input] + rest, first) == [Job(first, input)] + Numbered(rest, first + 1)
  {
  }

  lemma ReadableShift(lines: seq<Option<string>>, k: nat)
    requires k > 0 && lines != [] && lines[0].Some?
    ensures Readable(lines, k) <==> Readable(lines[1..], k - 1)
  {
    if Readable(lines[1..], k - 1) {
      forall j | 0 <= j <= k
        ensures j < |lines| && lines[j].Some?
      {
        if j > 0 {
          assert lines[1..][j - 1].Some?;
        }
      }
    }
  }

  /** What a source puts into the queue: the inputs of its lines up to a read error, each between the
      white space around it, without blank lines and comments, in order, and nothing else. */
  lemma AcceptedIsQueued(lines: seq<Option<string>>, first: nat)
    ensures QueuedFrom(lines, Numbered(Accepted(lines), first), first)
  {
    var ks := AcceptedPicks(lines, first);
  }

  /** Of several files, one after the other, each opened one gives its inputs. */
  lemma {:induction false} FilesInOrder(files: seq<Option<seq<Option<string>>>>, more: seq<Option<seq<Option<string>>>>)
    ensures AcceptedFiles(files + more) == AcceptedFiles(files) + AcceptedFiles(more)
    ensures forall lines :: AcceptedFiles([Some(lines)]) == Accepted(lines)
    ensures AcceptedFiles([None]) == []
  {
    if files == [] {
      assert files + more == more;
    } else {
      assert (files + more)[1..] == files[1..] + more;
      FilesInOrder(files[1..], more);
    }
    forall lines
      ensures AcceptedFiles([Some(lines)]) == Accepted(lines)
    {
      assert AcceptedFiles([Some(lines)]) == Accepted(lines) + AcceptedFiles([]);
    }
  }

  /** Inputs read from lines can always be sent; strings from the command line may hold newlines. */
  lemma {:induction false} AcceptedAreSendable(lines: seq<Option<string>>)
    requires forall line | Some(line) in lines :: '\n' !in line
    ensures forall input | input in Accepted(lines) :: input != "" && input[0] != '#' && '\n' !in input
  {
    if lines != [] && lines[0].Some? {
      var line := lines[0].value;
      assert Some(line) in lines;
      TrimKeepsNewlinesOut(line);
      TrimKeepsNewlinesOut(TrimLeft(line));
      AcceptedAreSendable(lines[1..]);
    }
  }
}
