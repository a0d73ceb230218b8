/** The command-template tokenizer and the expansion of its tokens into a command line. */
module Tokenizer {
  import opened Sequences
  import opened Wrappers
  import Decimal

  datatype Token = Placeholder | Slot | Job | Text(text: string)

  // ---------- The template grammar ----------

  /** The piece of a template that starts at some position: literal text up to `next`,
      a group that stands for `token`, or a brace that is never closed. */
  datatype Piece = Literal(next: nat) | Group(token: Token, next: nat) | Unclosed

  /** The first closing brace at or after `i` that no backslash hides; |s| if there is none. */
  function FindClose(s: string, i: nat): (k: nat)
    requires i <= |s|
    ensures i <= k <= |s|
    ensures k < |s| ==> s[k] == '}'
    decreases |s| - i
  {
    if i == |s| then |s|
    else if s[i] == '}' then i
    else FindClose(s, SkipChar(s, i))
  }

  /** The position after one character, or after a backslash and the character it hides. */
  function SkipChar(s: string, i: nat): (j: nat)
    requires i < |s|
    ensures i < j <= |s|
  {
    if s[i] == '\\' && i + 1 < |s| then i + 2 else i + 1
  }

  function GroupToken(group: string): Option<Token> {
    if group == "{}" then Some(Placeholder)
    else if group == "{%}" then Some(Slot)
    else if group == "{#}" then Some(Job)
    else None
  }

  function PieceAt(s: string, i: nat): (p: Piece)
    requires i < |s|
    ensures !p.Unclosed? ==> i < p.next <= |s|
  {
    if s[i] != '{' then Literal(SkipChar(s, i))
    else
      var k := FindClose(s, i + 1);
      if k == |s| then Unclosed
      else match GroupToken(s[i..k + 1])
           case Some(token) => Group(token, k + 1)
           case None => Literal(k + 1)
  }

  // ---------- Meaning ----------

  /** What a token contributes to the command line of one job. */
  function TokenValue(token: Token, sid: nat, jid: nat, input: string): string {
    match token
    case Placeholder => input
    case Slot => Decimal.ToString(sid)
    case Job => Decimal.ToString(jid)
    case Text(text) => text
  }

  /** The template from `i` on with its groups replaced; inserted text is not looked at again. */
  function SubstituteFrom(s: string, i: nat, sid: nat, jid: nat, input: string): string
    requires i <= |s|
    decreases |s| - i
  {
    if i == |s| then ""
    else match PieceAt(s, i)
         case Literal(next) => s[i..next] + SubstituteFrom(s, next, sid, jid, input)
         case Group(token, next) => TokenValue(token, sid, jid, input) + SubstituteFrom(s, next, sid, jid, input)
         case Unclosed => s[i..]
  }

  /** Whether the template from `i` on names the input. */
  predicate MentionsInput(s: string, i: nat)
    requires i <= |s|
    decreases |s| - i
  {
    i < |s| &&
    match PieceAt(s, i)
    case Unclosed => false
    case Literal(next) => MentionsInput(s, next)
    case Group(token, next) => token == Placeholder || MentionsInput(s, next)
  }

  /** Whether the template from `i` on ends inside a brace group. */
  predicate EndsOpen(s: string, i: nat)
    requires i <= |s|
    decreases |s| - i
  {
    i < |s| && (PieceAt(s, i).Unclosed? || EndsOpen(s, PieceAt(s, i).next))
  }

  /** The command line a template stands for, defined on the template itself. */
  function CommandLine(template: string, sid: nat, jid: nat, input: string): string {
    SubstituteFrom(template, 0, sid, jid, input) +
    if MentionsInput(template, 0) then "" else (if template == "" then "" else " ") + input
  }

  // ---------- Tokens ----------

  function Flush(pending: string): seq<Token> {
    if pending == "" then [] else [Text(pending)]
  }

  /** The tokens of s[start..] when s[start..i] is text not yet stored. */
  function Scan(s: string, start: nat, i: nat): seq<Token>
    requires start <= i <= |s|
    decreases |s| - i
  {
    if i == |s| then Flush(s[start..])
    else if s[i] != '{' then Scan(s, start, SkipChar(s, i))
    else Flush(s[start..i]) +
         match PieceAt(s, i)
         case Unclosed => [Text(s[i..])]
         case Literal(next) => Scan(s, i, next)
         case Group(token, next) => [token] + Scan(s, next, next)
  }

  /** One space is added to the last text, or as a text of its own after another token. */
  function AddSpace(tokens: seq<Token>): seq<Token> {
    var last := |tokens| - 1;
    if tokens != [] && tokens[last].Text? then tokens[..last] + [Text(tokens[last].text + " ")]
    else tokens + [Text(" ")]
  }

  /** A template that does not name the input has it appended. */
  function Complete(tokens: seq<Token>): seq<Token> {
    if Placeholder in tokens then tokens
    else (if tokens == [] then [] else AddSpace(tokens)) + [Placeholder]
  }

  function Tokenise(template: string): seq<Token> {
    Complete(Scan(template, 0, 0))
  }

  function Expand(tokens: seq<Token>, sid: nat, jid: nat, input: string): string {
    if tokens == [] then ""
    else TokenValue(tokens[0], sid, jid, input) + Expand(tokens[1..], sid, jid, input)
  }

  function Printed(token: Token): string {
    match token
    case Placeholder => "{}"
    case Slot => "{%}"
    case Job => "{#}"
    case Text(text) => text
  }

  function Display(tokens: seq<Token>): string {
    if tokens == [] then "" else Printed(tokens[0]) + Display(tokens[1..])
  }

  // ---------- The scanner ----------

  const PLACE: bv8 := 1
  const OPEN: bv8 := 2

  predicate Has(flags: bv8, bit: bv8) {
    flags & bit != 0
  }

  lemma FlagBits(flags: bv8)
    ensures !Has(0, OPEN) && !Has(0, PLACE)
    ensures Has(flags | OPEN, OPEN) && (Has(flags | OPEN, PLACE) <==> Has(flags, PLACE))
    ensures Has(flags | PLACE, PLACE) && (Has(flags | PLACE, OPEN) <==> Has(flags, OPEN))
    ensures Has(flags ^ OPEN, OPEN) <==> !Has(flags, OPEN)
    ensures Has(flags ^ OPEN, PLACE) <==> Has(flags, PLACE)
  {
  }

  /** What the scan has established at position `i`: the tokens stored and the text from
      `start` on print as the template, and together with the tokens still to come they are
      those of the whole template. Inside a group, `start` is its opening brace. */
  ghost predicate Scanned(s: string, tokens: seq<Token>, start: nat, i: nat, open: bool) {
    && start <= i <= |s|
    && Display(tokens) + s[start..] == s
    && (if open
        then start < i && s[start] == '{' && FindClose(s, start + 1) == FindClose(s, i)
             && tokens + Scan(s, start, start) == Scan(s, 0, 0)
        else tokens + Scan(s, start, i) == Scan(s, 0, 0))
  }

  method New(input: string) returns (tokens: seq<Token>)
    ensures tokens == Tokenise(input)
  {
    tokens := [];
    hide Scanned, Tokenise, Complete, GroupToken, Scan, Display, FindClose, SkipChar, PieceAt, Has;
    var start: nat := 0;
    var flags: bv8 := 0;
    var next := 0;
    ghost var open := false;
    BeginScan(input);
    FlagBits(flags);
    while next < |input|
      invariant start <= next <= |input|
      invariant Scanned(input, tokens, start, next, open)
      invariant open <==> Has(flags, OPEN)
      invariant Has(flags, PLACE) <==> Placeholder in tokens
    {
      var id, character := next, input[next];
      next := next + 1;
      if character == '\\' {
        PassBackslash(input, tokens, start, id, open);
        if next < |input| {
          next := next + 1;
        }
      } else if character == '{' && !Has(flags, OPEN) {
        tokens, start, flags := OpenBrace(input, tokens, start, id, flags);
        open := true;
      } else if character == '}' && Has(flags, OPEN) {
        open := false;
        tokens, start, flags := CloseBrace(input, tokens, start, id, flags);
      } else {
        PassCharacter(input, tokens, start, id, open);
      }
    }
    tokens := Finish(input, tokens, start, flags, open);
  }

  /** The text after the last group is stored, and the input is named if it has not been. */
  method Finish(input: string, stored: seq<Token>, start: nat, flags: bv8, ghost open: bool) returns (tokens: seq<Token>)
    requires start <= |input| && Scanned(input, stored, start, |input|, open) && (Has(flags, PLACE) <==> Placeholder in stored)
    ensures tokens == Tokenise(input)
  {
    hide Scanned, Has, Tokenise, Complete;
    tokens := stored;
    EndScan(input, tokens, start, open);
    if start != |input| {
      tokens := tokens + [Text(input[start..])];
    }
    tokens := AppendPlaceholder(tokens, flags);
  }

  /** An opening brace begins a group at `id`; the text before it is stored. */
  method OpenBrace(input: string, stored: seq<Token>, begin: nat, id: nat, lowered: bv8)
    returns (tokens: seq<Token>, start: nat, flags: bv8)
    requires begin <= id < |input| && input[id] == '{' && Scanned(input, stored, begin, id, false)
    requires Has(lowered, PLACE) <==> Placeholder in stored
    ensures start == id && Scanned(input, tokens, start, id + 1, true)
    ensures Has(flags, OPEN) && (Has(flags, PLACE) <==> Placeholder in tokens)
  {
    hide Scanned, Has;
    FlagBits(lowered);
    OpenGroup(input, stored, begin, id);
    tokens, start, flags := stored, begin, lowered | OPEN;
    if start != id {
      tokens := tokens + [Text(input[start..id])];
      start := id;
    }
  }

  /** A closing brace ends the group that begins at `start`: one of the three, or text. */
  method CloseBrace(input: string, stored: seq<Token>, begin: nat, id: nat, raised: bv8)
    returns (tokens: seq<Token>, start: nat, flags: bv8)
    requires begin <= id < |input| && input[id] == '}' && Scanned(input, stored, begin, id, true)
    requires Has(raised, OPEN) && (Has(raised, PLACE) <==> Placeholder in stored)
    ensures start <= id + 1 && Scanned(input, tokens, start, id + 1, false)
    ensures !Has(flags, OPEN) && (Has(flags, PLACE) <==> Placeholder in tokens)
  {
    hide Scanned, GroupToken, Has;
    FlagBits(raised);
    tokens, start, flags := stored, begin, raised ^ OPEN;
    match GroupToken(input[start..id + 1]) {
      case Some(token) =>
        CloseToken(input, tokens, start, id, token);
        tokens := tokens + [token];
        if token == Placeholder {
          FlagBits(flags);
          flags := flags | PLACE;
        }
        start := id + 1;
      case None =>
        CloseText(input, tokens, start, id);
    }
  }

  /** The end of `new`: a template that does not name the input has it appended. */
  method AppendPlaceholder(scanned: seq<Token>, flags: bv8) returns (tokens: seq<Token>)
    requires Has(flags, PLACE) <==> Placeholder in scanned
    ensures tokens == Complete(scanned)
  {
    tokens := scanned;
    if !Has(flags, PLACE) {
      var appendText := false;
      if tokens != [] {
        var last := |tokens| - 1;
        if tokens[last].Text? {
          tokens := tokens[last := Text(tokens[last].text + " ")];
        } else {
          appendText := true;
        }
      }
      if appendText {
        tokens := tokens + [Text(" ")];
      }
      tokens := tokens + [Placeholder];
    }
  }

  lemma BeginScan(s: string)
    ensures Scanned(s, [], 0, 0, false)
  {
  }

  lemma PassBackslash(s: string, tokens: seq<Token>, start: nat, i: nat, open: bool)
    requires Scanned(s, tokens, start, i, open) && i < |s| && s[i] == '\\'
    ensures Scanned(s, tokens, start, if i + 1 < |s| then i + 2 else i + 1, open)
  {
  }

  lemma PassCharacter(s: string, tokens: seq<Token>, start: nat, i: nat, open: bool)
    requires Scanned(s, tokens, start, i, open) && i < |s| && s[i] != '\\'
    requires if open then s[i] != '}' else s[i] != '{'
    ensures Scanned(s, tokens, start, i + 1, open)
  {
  }

  lemma OpenGroup(s: string, tokens: seq<Token>, start: nat, i: nat)
    requires start <= i < |s| && Scanned(s, tokens, start, i, false) && s[i] == '{'
    ensures Scanned(s, if start != i then tokens + [Text(s[start..i])] else tokens, i, i + 1, true)
  {
    ScanBrace(s, start, i);
    if start != i {
      Regroup(tokens, [Text(s[start..i])], Scan(s, i, i));
      SplitAt(s, start, i);
      DisplayAppend(tokens, Text(s[start..i]));
      Regroup(Display(tokens), s[start..i], s[i..]);
    }
  }

  lemma CloseHere(s: string, i: nat)
    requires i < |s| && s[i] == '}'
    ensures FindClose(s, i) == i
  {
  }

  lemma CloseToken(s: string, tokens: seq<Token>, start: nat, i: nat, token: Token)
    requires start <= i < |s| && Scanned(s, tokens, start, i, true) && s[i] == '}'
    requires GroupToken(s[start..i + 1]) == Some(token)
    ensures Scanned(s, tokens + [token], i + 1, i + 1, false)
  {
    hide FindClose, Scan, Display, Printed;
    CloseHere(s, i);
    ScanGroup(s, start);
    Regroup(tokens, [token], Scan(s, i + 1, i + 1));
    PrintGroup(s, tokens, start, i, token);
  }

  lemma CloseText(s: string, tokens: seq<Token>, start: nat, i: nat)
    requires start <= i < |s| && Scanned(s, tokens, start, i, true) && s[i] == '}'
    requires GroupToken(s[start..i + 1]) == None
    ensures Scanned(s, tokens, start, i + 1, false)
  {
    hide FindClose, Scan, Display, Printed;
    CloseHere(s, i);
    ScanGroup(s, start);
  }

  lemma PrintGroup(s: string, tokens: seq<Token>, start: nat, i: nat, token: Token)
    requires start <= i < |s| && GroupToken(s[start..i + 1]) == Some(token)
    ensures Display(tokens + [token]) + s[i + 1..] == Display(tokens) + s[start..]
  {
    DisplayAppend(tokens, token);
    assert Printed(token) == s[start..i + 1];
    SplitAt(s, start, i + 1);
    Regroup(Display(tokens), s[start..i + 1], s[i + 1..]);
  }

  lemma SplitAt(s: string, i: nat, j: nat)
    requires i <= j <= |s|
    ensures s[i..] == s[i..j] + s[j..]
  {
  }

  lemma EndScan(s: string, tokens: seq<Token>, start: nat, open: bool)
    requires start <= |s| && Scanned(s, tokens, start, |s|, open)
    ensures Tokenise(s) == Complete(if start != |s| then tokens + [Text(s[start..])] else tokens)
  {
    if open {
      ScanGroup(s, start);
    }
    assert Scan(s, 0, 0) == tokens + Flush(s[start..]);
  }

  lemma {:induction false} DisplayConcat(a: seq<Token>, b: seq<Token>)
    ensures Display(a + b) == Display(a) + Display(b)
  {
    if a == [] {
      assert a + b == b;
    } else {
      assert (a + b)[1..] == a[1..] + b;
      DisplayConcat(a[1..], b);
      Regroup(Printed(a[0]), Display(a[1..]), Display(b));
    }
  }

  lemma DisplayAppend(tokens: seq<Token>, token: Token)
    ensures Display(tokens + [token]) == Display(tokens) + Printed(token)
  {
    DisplayConcat(tokens, [token]);
    assert Display([token]) == Printed(token) + Display([]);
  }

  /** Meeting a brace stores the pending text; scanning goes on from the brace. */
  lemma ScanBrace(s: string, start: nat, i: nat)
    requires start <= i < |s| && s[i] == '{'
    ensures Scan(s, start, i) == if start != i then [Text(s[start..i])] + Scan(s, i, i) else Scan(s, i, i)
  {
    assert Flush(s[i..i]) == [];
  }

  lemma ScanGroup(s: string, i: nat)
    requires i < |s| && s[i] == '{'
    ensures Scan(s, i, i) ==
            var piece := PieceAt(s, i);
            if piece.Unclosed? then [Text(s[i..])]
            else if piece.Literal? then Scan(s, i, piece.next)
            else [piece.token] + Scan(s, piece.next, piece.next)
  {
    assert Flush(s[i..i]) == [];
  }
}
