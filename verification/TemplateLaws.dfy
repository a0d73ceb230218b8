/** What the tokens of a template mean and how they print. */
module TemplateLaws {
  import opened Sequences
  import opened Tokenizer

  // ---------- Tokens and text ----------

  lemma {:induction false} ExpandConcat(a: seq<Token>, b: seq<Token>, sid: nat, jid: nat, input: string)
    ensures Expand(a + b, sid, jid, input) == Expand(a, sid, jid, input) + Expand(b, sid, jid, input)
  {
    if a == [] {
      assert a + b == b;
    } else {
      assert (a + b)[1..] == a[1..] + b;
      ExpandConcat(a[1..], b, sid, jid, input);
      Regroup(TokenValue(a[0], sid, jid, input), Expand(a[1..], sid, jid, input), Expand(b, sid, jid, input));
    }
  }

  lemma ExpandSingle(token: Token, sid: nat, jid: nat, input: string)
    ensures Expand([token], sid, jid, input) == TokenValue(token, sid, jid, input)
  {
    assert Expand([token], sid, jid, input) == TokenValue(token, sid, jid, input) + Expand([], sid, jid, input);
  }

  lemma ExpandFlush(text: string, sid: nat, jid: nat, input: string)
    ensures Expand(Flush(text), sid, jid, input) == text
  {
    if text != "" {
      ExpandSingle(Text(text), sid, jid, input);
    }
  }

  lemma DisplaySingle(token: Token)
    ensures Display([token]) == Printed(token)
  {
    assert Display([token]) == Printed(token) + Display([]);
  }

  lemma DisplayFlush(text: string)
    ensures Display(Flush(text)) == text
  {
    if text != "" {
      DisplaySingle(Text(text));
    }
  }

  // ---------- Meaning ----------

  /** Tokens scanned from position `i` expand to the pending text and the substitution of the rest. */
  lemma {:induction false} ExpandScan(s: string, start: nat, i: nat, sid: nat, jid: nat, input: string)
    requires start <= i <= |s|
    ensures Expand(Scan(s, start, i), sid, jid, input) == s[start..i] + SubstituteFrom(s, i, sid, jid, input)
    decreases |s| - i
  {
    if i == |s| {
      ExpandFlush(s[start..], sid, jid, input);
      assert s[start..i] == s[start..];
      assert s[start..i] + "" == s[start..];
    } else if s[i] != '{' {
      var next := SkipChar(s, i);
      ExpandScan(s, start, next, sid, jid, input);
      assert s[start..next] == s[start..i] + s[i..next];
      Regroup(s[start..i], s[i..next], SubstituteFrom(s, next, sid, jid, input));
    } else {
      var pending := s[start..i];
      ExpandFlush(pending, sid, jid, input);
      match PieceAt(s, i)
      case Unclosed =>
        ExpandConcat(Flush(pending), [Text(s[i..])], sid, jid, input);
        ExpandSingle(Text(s[i..]), sid, jid, input);
      case Literal(next) =>
        ExpandConcat(Flush(pending), Scan(s, i, next), sid, jid, input);
        ExpandScan(s, i, next, sid, jid, input);
      case Group(token, next) =>
        ExpandConcat(Flush(pending), [token] + Scan(s, next, next), sid, jid, input);
        ExpandConcat([token], Scan(s, next, next), sid, jid, input);
        ExpandSingle(token, sid, jid, input);
        ExpandScan(s, next, next, sid, jid, input);
        assert s[next..next] + SubstituteFrom(s, next, sid, jid, input) == SubstituteFrom(s, next, sid, jid, input);
    }
  }

  /** The scan stores a placeholder exactly when the template names the input. */
  lemma {:induction false} PlaceholderScanned(s: string, start: nat, i: nat)
    requires start <= i <= |s|
    ensures Placeholder in Scan(s, start, i) <==> MentionsInput(s, i)
    decreases |s| - i
  {
    if i < |s| {
      if s[i] != '{' {
        PlaceholderScanned(s, start, SkipChar(s, i));
      } else {
        match PieceAt(s, i)
        case Unclosed =>
        case Literal(next) => PlaceholderScanned(s, i, next);
        case Group(token, next) => PlaceholderScanned(s, next, next);
      }
    }
  }

  lemma ScanEmptyOnlyAtEnd(s: string)
    ensures Scan(s, 0, 0) == [] <==> s == ""
  {
    DisplayScan(s, 0, 0);
    assert s[0..] == s;
  }

  lemma ExpandAddSpace(tokens: seq<Token>, sid: nat, jid: nat, input: string)
    ensures Expand(AddSpace(tokens), sid, jid, input) == Expand(tokens, sid, jid, input) + " "
  {
    var last := |tokens| - 1;
    if tokens != [] && tokens[last].Text? {
      assert tokens == tokens[..last] + [tokens[last]];
      ExpandConcat(tokens[..last], [tokens[last]], sid, jid, input);
      ExpandConcat(tokens[..last], [Text(tokens[last].text + " ")], sid, jid, input);
      ExpandSingle(tokens[last], sid, jid, input);
      ExpandSingle(Text(tokens[last].text + " "), sid, jid, input);
      Regroup(Expand(tokens[..last], sid, jid, input), tokens[last].text, " ");
    } else {
      ExpandConcat(tokens, [Text(" ")], sid, jid, input);
      ExpandSingle(Text(" "), sid, jid, input);
    }
  }

  /** Tokenising and expanding gives the command line the template stands for. */
  lemma ExpandTokenised(template: string, sid: nat, jid: nat, input: string)
    ensures Expand(Tokenise(template), sid, jid, input) == CommandLine(template, sid, jid, input)
  {
    var scanned := Scan(template, 0, 0);
    ExpandScan(template, 0, 0, sid, jid, input);
    assert template[0..0] + SubstituteFrom(template, 0, sid, jid, input) == SubstituteFrom(template, 0, sid, jid, input);
    PlaceholderScanned(template, 0, 0);
    ScanEmptyOnlyAtEnd(template);
    ExpandSingle(Placeholder, sid, jid, input);
    if MentionsInput(template, 0) {
      assert SubstituteFrom(template, 0, sid, jid, input) + "" == SubstituteFrom(template, 0, sid, jid, input);
    } else if template == "" {
      assert [] + [Placeholder] == [Placeholder];
    } else {
      ExpandAddSpace(scanned, sid, jid, input);
      ExpandConcat(AddSpace(scanned), [Placeholder], sid, jid, input);
      Regroup(SubstituteFrom(template, 0, sid, jid, input), " ", input);
    }
  }

  // ---------- Printing ----------

  lemma ScanSkips(s: string, start: nat, i: nat)
    requires start <= i <= |s|
    ensures i == |s| ==> Scan(s, start, i) == Flush(s[start..])
    ensures i < |s| && s[i] != '{' ==> Scan(s, start, i) == Scan(s, start, SkipChar(s, i))
  {
  }

  lemma GroupPrints(s: string, i: nat)
    requires i < |s| && PieceAt(s, i).Group?
    ensures s[i] == '{' && Printed(PieceAt(s, i).token) == s[i..PieceAt(s, i).next] && !PieceAt(s, i).token.Text?
  {
    hide FindClose;
  }

  lemma DisplayCons(token: Token, rest: seq<Token>)
    ensures Display([token] + rest) == Printed(token) + Display(rest)
  {
    assert ([token] + rest)[1..] == rest;
  }

  /** What the scan stores of a brace group and what follows prints as the template from there. */
  lemma {:induction false} DisplayGroup(s: string, i: nat)
    requires i < |s| && s[i] == '{'
    ensures Display(Scan(s, i, i)) == s[i..]
    decreases |s| - i, 0
  {
    hide Scan, Display, PieceAt, Printed;
    ScanGroup(s, i);
    var piece := PieceAt(s, i);
    if piece.Unclosed? {
      DisplaySingle(Text(s[i..]));
      PrintedText(s[i..]);
    } else if piece.Literal? {
      DisplayScan(s, i, piece.next);
    } else {
      DisplayCons(piece.token, Scan(s, piece.next, piece.next));
      DisplayScan(s, piece.next, piece.next);
      GroupPrints(s, i);
      SplitAt(s, i, piece.next);
    }
  }

  lemma PrintedText(text: string)
    ensures Printed(Text(text)) == text
  {
  }

  lemma {:induction false} DisplayScan(s: string, start: nat, i: nat)
    requires start <= i <= |s|
    ensures Display(Scan(s, start, i)) == s[start..]
    decreases |s| - i, 1
  {
    hide Scan, Display, PieceAt, SkipChar, Printed;
    ScanSkips(s, start, i);
    if i == |s| {
      DisplayFlush(s[start..]);
    } else if s[i] != '{' {
      DisplayScan(s, start, SkipChar(s, i));
    } else {
      ScanBrace(s, start, i);
      DisplayGroup(s, i);
      if start != i {
        DisplayCons(Text(s[start..i]), Scan(s, i, i));
        PrintedText(s[start..i]);
        SplitAt(s, start, i);
      }
    }
  }

  /** Prints the tokens one after the other. */
  method Print(tokens: seq<Token>) returns (written: string)
    ensures written == Display(tokens)
  {
    hide Display;
    written := "";
    assert Display([]) == "" by { DisplayNothing(); }
    for k := 0 to |tokens|
      invariant written == Display(tokens[..k])
    {
      DisplayAppend(tokens[..k], tokens[k]);
      assert tokens[..k + 1] == tokens[..k] + [tokens[k]];
      match tokens[k] {
        case Placeholder => written := written + "{}";
        case Slot => written := written + "{%}";
        case Job => written := written + "{#}";
        case Text(text) => written := written + text;
      }
    }
    assert tokens[..|tokens|] == tokens;
  }

  lemma DisplayNothing()
    ensures Display([]) == ""
  {
  }

  lemma DisplayAddSpace(tokens: seq<Token>)
    ensures Display(AddSpace(tokens)) == Display(tokens) + " "
  {
    var last := |tokens| - 1;
    if tokens != [] && tokens[last].Text? {
      assert tokens == tokens[..last] + [tokens[last]];
      DisplayConcat(tokens[..last], [tokens[last]]);
      DisplayConcat(tokens[..last], [Text(tokens[last].text + " ")]);
      DisplaySingle(tokens[last]);
      DisplaySingle(Text(tokens[last].text + " "));
      Regroup(Display(tokens[..last]), tokens[last].text, " ");
    } else {
      DisplayConcat(tokens, [Text(" ")]);
      DisplaySingle(Text(" "));
    }
  }

  /** Nothing of the template is lost: its tokens print as the template, with the
      appended placeholder after one space. */
  lemma DisplayTokenised(template: string)
    ensures Display(Tokenise(template)) ==
            if MentionsInput(template, 0) then template
            else if template == "" then "{}"
            else template + " {}"
  {
    var scanned := Scan(template, 0, 0);
    DisplayScan(template, 0, 0);
    PlaceholderScanned(template, 0, 0);
    ScanEmptyOnlyAtEnd(template);
    DisplaySingle(Placeholder);
    assert template[0..] == template;
    if MentionsInput(template, 0) {
    } else if template == "" {
      assert [] + [Placeholder] == [Placeholder];
    } else {
      DisplayAddSpace(scanned);
      DisplayConcat(AddSpace(scanned), [Placeholder]);
      assert template + " " + "{}" == template + " {}";
    }
  }

  lemma {:induction false} ScanTextsNonEmpty(s: string, start: nat, i: nat)
    requires start <= i <= |s|
    ensures Text("") !in Scan(s, start, i)
    decreases |s| - i
  {
    if i < |s| {
      if s[i] != '{' {
        ScanTextsNonEmpty(s, start, SkipChar(s, i));
      } else {
        match PieceAt(s, i)
        case Unclosed =>
        case Literal(next) => ScanTextsNonEmpty(s, i, next);
        case Group(token, next) => ScanTextsNonEmpty(s, next, next);
      }
    }
  }

  /** Every text token carries text, and some token takes the input. */
  lemma TokensWellFormed(template: string)
    ensures Text("") !in Tokenise(template)
    ensures Placeholder in Tokenise(template)
  {
    ScanTextsNonEmpty(template, 0, 0);
  }

  // ---------- Tokenising what was printed ----------

  /** The appended text closes a group that was left open, and nothing else. */
  lemma {:induction false} FindCloseAppended(s: string, i: nat)
    requires i <= |s|
    ensures FindClose(s + " {}", i) == if FindClose(s, i) < |s| then FindClose(s, i) else |s| + 2
    decreases |s| - i
  {
    var t := s + " {}";
    if i == |s| {
      assert FindClose(t, |s|) == FindClose(t, |s| + 1) == FindClose(t, |s| + 2) == |s| + 2;
    } else if s[i] != '}' {
      if s[i] == '\\' && i + 1 == |s| {
        assert FindClose(t, |s| + 1) == FindClose(t, |s| + 2) == |s| + 2;
      } else {
        FindCloseAppended(s, SkipChar(s, i));
      }
    }
  }

  lemma PieceAppended(s: string, i: nat)
    requires i < |s|
    ensures var t := s + " {}";
            PieceAt(t, i) ==
            if PieceAt(s, i).Unclosed? then Literal(|t|)
            else if s[i] == '\\' && i + 1 == |s| then Literal(|s| + 1)
            else PieceAt(s, i)
  {
    var t := s + " {}";
    if s[i] == '{' {
      FindCloseAppended(s, i + 1);
      var k := FindClose(s, i + 1);
      if k < |s| {
        assert t[i..k + 1] == s[i..k + 1];
      } else {
        assert |t[i..|s| + 3]| >= 4;
      }
    }
  }

  /** The tokens of the appended text, scanned from its end or from a character later. */
  lemma ScanTail(s: string, start: nat, i: nat)
    requires start <= |s| && |s| <= i <= |s| + 1
    ensures Scan(s + " {}", start, i) == [Text(s[start..] + " "), Placeholder]
  {
    var t := s + " {}";
    var j := |s| + 1;
    assert FindClose(t, j + 1) == j + 1;
    assert t[j..j + 2] == "{}";
    assert PieceAt(t, j) == Group(Placeholder, |t|);
    assert t[start..j] == s[start..] + " ";
    assert Scan(t, |t|, |t|) == [];
    assert [Placeholder] + [] == [Placeholder];
    assert Scan(t, start, j) == Flush(t[start..j]) + [Placeholder];
    if i == |s| {
      assert Scan(t, start, |s|) == Scan(t, start, j);
    }
  }

  lemma ScanStoresRest(s: string, i: nat)
    requires i < |s|
    ensures Scan(s, i, i) != []
  {
    hide Scan;
    DisplayScan(s, i, i);
  }

  lemma PrefixAppended(prefix: seq<Token>, tokens: seq<Token>)
    requires tokens != [] || prefix == [] || !prefix[|prefix| - 1].Text?
    ensures prefix + (AddSpace(tokens) + [Placeholder]) == AddSpace(prefix + tokens) + [Placeholder]
  {
    if tokens == [] {
      assert prefix + tokens == prefix;
    } else {
      var last := |tokens| - 1;
      assert (prefix + tokens)[..|prefix| + last] == prefix + tokens[..last];
    }
  }

  lemma AddSpaceToFlush(text: string)
    ensures AddSpace(Flush(text)) + [Placeholder] == [Text(text + " "), Placeholder]
  {
    if text == "" {
      assert text + " " == " ";
    }
  }

  lemma {:induction false} GroupAppended(s: string, i: nat)
    requires i < |s| && s[i] == '{' && !MentionsInput(s, i) && !EndsOpen(s, i)
    ensures Scan(s + " {}", i, i) == AddSpace(Scan(s, i, i)) + [Placeholder]
    decreases |s| - i, 0
  {
    hide Scan, PieceAt, FindClose, AddSpace;
    var t := s + " {}";
    PieceAppended(s, i);
    ScanGroup(s, i);
    ScanGroup(t, i);
    var piece := PieceAt(s, i);
    if piece.Literal? {
      ScanAppended(s, i, piece.next);
    } else {
      GroupPrints(s, i);
      ScanAppended(s, piece.next, piece.next);
      PrefixAppended([piece.token], Scan(s, piece.next, piece.next));
    }
  }

  /** When no group is left open, the appended text is scanned as what `new` appends itself. */
  lemma {:induction false} ScanAppended(s: string, start: nat, i: nat)
    requires start <= i <= |s|
    requires !MentionsInput(s, i) && !EndsOpen(s, i)
    ensures Scan(s + " {}", start, i) == AddSpace(Scan(s, start, i)) + [Placeholder]
    decreases |s| - i, 1
  {
    hide Scan, PieceAt, FindClose, AddSpace;
    var t := s + " {}";
    ScanSkips(s, start, i);
    ScanSkips(t, start, i);
    if i == |s| {
      ScanTail(s, start, i);
      AddSpaceToFlush(s[start..]);
    } else if s[i] == '{' {
      ScanBrace(s, start, i);
      ScanBrace(t, start, i);
      assert t[start..i] == s[start..i];
      GroupAppended(s, i);
      ScanStoresRest(s, i);
      PrefixAppended([Text(s[start..i])], Scan(s, i, i));
    } else if s[i] == '\\' && i + 1 == |s| {
      ScanTail(s, start, |s| + 1);
      ScanSkips(s, start, |s|);
      AddSpaceToFlush(s[start..]);
    } else {
      MeaningSkips(s, i);
      ScanAppended(s, start, SkipChar(s, i));
    }
  }

  lemma MeaningSkips(s: string, i: nat)
    requires i < |s| && s[i] != '{'
    ensures MentionsInput(s, i) == MentionsInput(s, SkipChar(s, i)) && EndsOpen(s, i) == EndsOpen(s, SkipChar(s, i))
  {
  }

  /** The appended text never leaves a group open, and inside an open group it is no placeholder. */
  lemma {:induction false} AppendedCloses(s: string, i: nat)
    requires i <= |s|
    ensures !EndsOpen(s + " {}", i)
    ensures EndsOpen(s, i) && !MentionsInput(s, i) ==> !MentionsInput(s + " {}", i)
    decreases |s| - i
  {
    var t := s + " {}";
    var j := |s| + 1;
    assert FindClose(t, j + 1) == j + 1;
    assert t[j..j + 2] == "{}";
    assert PieceAt(t, j) == Group(Placeholder, |t|);
    assert !EndsOpen(t, |t|) && !MentionsInput(t, |t|);
    assert !EndsOpen(t, j);
    if i == |s| {
      assert PieceAt(t, |s|) == Literal(j);
    } else {
      PieceAppended(s, i);
      assert !EndsOpen(s, |s|);
      if !PieceAt(s, i).Unclosed? && !(s[i] == '\\' && i + 1 == |s|) {
        AppendedCloses(s, PieceAt(s, i).next);
      }
    }
  }

  lemma BracesAlone()
    ensures PieceAt("{}", 0) == Group(Placeholder, 2)
  {
    assert FindClose("{}", 1) == 1;
    assert "{}"[0..2] == "{}";
  }

  /** Printing tokens and tokenising again gives the same tokens exactly when the template
      names the input or leaves no group open. */
  lemma RetokeniseIff(template: string)
    ensures Tokenise(Display(Tokenise(template))) == Tokenise(template)
            <==> MentionsInput(template, 0) || !EndsOpen(template, 0)
  {
    DisplayTokenised(template);
    PlaceholderScanned(template, 0, 0);
    if MentionsInput(template, 0) {
    } else if template == "" {
      BracesAlone();
    } else {
      var again := template + " {}";
      DisplayTokenised(again);
      if EndsOpen(template, 0) {
        AppendedCloses(template, 0);
      } else {
        ScanAppended(template, 0, 0);
        ScanEmptyOnlyAtEnd(template);
      }
    }
  }

  /** What was printed once prints and tokenises unchanged from then on. */
  lemma PrintedIsStable(template: string)
    ensures var printed := Display(Tokenise(template));
            Tokenise(Display(Tokenise(printed))) == Tokenise(printed)
  {
    hide Tokenise, Display, FindClose, EndsOpen;
    var printed := Display(Tokenise(template));
    DisplayTokenised(template);
    RetokeniseIff(printed);
    if !MentionsInput(template, 0) {
      AppendedCloses(template, 0);
      assert "" + " {}" == " {}";
      BracesAlone();
    }
  }

  // ---------- An example ----------

  /** A text without braces and backslashes, then a group. */
  lemma {:induction false} ScanText(s: string, start: nat, i: nat, k: nat)
    requires start <= i <= k <= |s| && forall j | i <= j < k :: s[j] != '\\' && s[j] != '{'
    ensures Scan(s, start, i) == Scan(s, start, k)
    decreases k - i
  {
    if i < k {
      ScanText(s, start, i + 1, k);
    }
  }

  lemma ClosesNext(s: string, i: nat)
    requires i + 2 <= |s| && s[i] != '}' && s[i] != '\\' && s[i + 1] == '}'
    ensures FindClose(s, i) == i + 1
  {
  }

  lemma ScanJob(s: string, i: nat)
    requires i + 3 <= |s| && s[i..i + 3] == "{#}"
    ensures Scan(s, i, i) == [Job] + Scan(s, i + 3, i + 3)
  {
    hide Scan, FindClose;
    assert s[i] == s[i..i + 3][0] && s[i + 1] == s[i..i + 3][1] && s[i + 2] == s[i..i + 3][2];
    ClosesNext(s, i + 1);
    ScanGroup(s, i);
  }

  lemma ScanInput(s: string, i: nat)
    requires i + 2 <= |s| && s[i..i + 2] == "{}"
    ensures Scan(s, i, i) == [Placeholder] + Scan(s, i + 2, i + 2)
  {
    assert s[i] == s[i..i + 2][0] && s[i + 1] == s[i..i + 2][1];
    assert FindClose(s, i + 1) == i + 1;
    ScanGroup(s, i);
  }

  /** The two templates that the tokenizer is documented by. */
  lemma TokensOfExamples()
    ensures Tokenise("echo {#}: {}") == [Text("echo "), Job, Text(": "), Placeholder]
    ensures Tokenise("echo {#}:") == [Text("echo "), Job, Text(": "), Placeholder]
  {
    hide Scan, PieceAt;
    var s, t := "echo {#}: {}", "echo {#}:";
    ScanText(s, 0, 0, 5);
    ScanBrace(s, 0, 5);
    ScanJob(s, 5);
    ScanText(s, 8, 8, 10);
    ScanBrace(s, 8, 10);
    ScanInput(s, 10);
    ScanSkips(s, 12, 12);
    assert s[0..5] == "echo " && s[8..10] == ": " && s[12..] == "";
    assert Scan(s, 0, 0) == [Text("echo "), Job, Text(": "), Placeholder];
    ScanText(t, 0, 0, 5);
    ScanBrace(t, 0, 5);
    ScanJob(t, 5);
    ScanText(t, 8, 8, 9);
    ScanSkips(t, 8, 9);
    assert t[0..5] == "echo " && t[8..] == ":";
    assert Scan(t, 0, 0) == [Text("echo "), Job, Text(":")];
    assert Placeholder !in Scan(t, 0, 0);
    assert ":" + " " == ": ";
  }
}
