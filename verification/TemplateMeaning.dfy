/** What templates mean, in terms of how they begin: these laws cover every template and fix its
    command line. */
module TemplateMeaning {
  import opened Sequences
  import opened Wrappers
  import opened Tokenizer
  import opened TemplateLaws
  import opened Decimal

  // ---------- Templates behind other text ----------

  lemma {:induction false} FindCloseShift(before: string, s: string, i: nat)
    requires i <= |s|
    ensures FindClose(before + s, |before| + i) == |before| + FindClose(s, i)
    decreases |s| - i
  {
    if i < |s| && s[i] != '}' {
      FindCloseShift(before, s, SkipChar(s, i));
    }
  }

  function Shifted(piece: Piece, n: nat): Piece {
    match piece
    case Literal(next) => Literal(next + n)
    case Group(token, next) => Group(token, next + n)
    case Unclosed => Unclosed
  }

  lemma PieceShift(before: string, s: string, i: nat)
    requires i < |s|
    ensures PieceAt(before + s, |before| + i) == Shifted(PieceAt(s, i), |before|)
  {
    hide FindClose;
    if s[i] == '{' {
      FindCloseShift(before, s, i + 1);
      var k := FindClose(s, i + 1);
      if k < |s| {
        assert (before + s)[|before| + i..|before| + k + 1] == s[i..k + 1];
      }
    }
  }

  lemma {:induction false} MeaningShift(before: string, s: string, i: nat, sid: nat, jid: nat, input: string)
    requires i <= |s|
    ensures SubstituteFrom(before + s, |before| + i, sid, jid, input) == SubstituteFrom(s, i, sid, jid, input)
    ensures MentionsInput(before + s, |before| + i) == MentionsInput(s, i)
    decreases |s| - i
  {
    hide PieceAt;
    if i < |s| {
      PieceShift(before, s, i);
      var piece := PieceAt(s, i);
      assert (before + s)[|before| + i..] == s[i..];
      if !piece.Unclosed? {
        MeaningShift(before, s, piece.next, sid, jid, input);
        assert (before + s)[|before| + i..|before| + piece.next] == s[i..piece.next];
      }
    }
  }

  // ---------- One piece and the rest ----------

  /** The command line of what follows a piece that does not name the input. */
  function Onward(rest: string, sid: nat, jid: nat, input: string): string {
    if rest == "" then " " + input else CommandLine(rest, sid, jid, input)
  }

  lemma PieceThenRest(piece: string, rest: string, value: string, sid: nat, jid: nat, input: string)
    requires piece != "" && !PieceAt(piece + rest, 0).Unclosed? && PieceAt(piece + rest, 0).next == |piece|
    requires value == if PieceAt(piece + rest, 0).Literal? then piece else TokenValue(PieceAt(piece + rest, 0).token, sid, jid, input)
    ensures SubstituteFrom(piece + rest, 0, sid, jid, input) == value + SubstituteFrom(rest, 0, sid, jid, input)
    ensures CommandLine(piece + rest, sid, jid, input) ==
            if PieceAt(piece + rest, 0) == Group(Placeholder, |piece|) then value + SubstituteFrom(rest, 0, sid, jid, input)
            else value + Onward(rest, sid, jid, input)
  {
    hide PieceAt, TokenValue;
    var s := piece + rest;
    MeaningShift(piece, rest, 0, sid, jid, input);
    assert s[0..|piece|] == piece;
    var after := SubstituteFrom(rest, 0, sid, jid, input);
    assert value + after + "" == value + after;
    assert after + "" == after;
    if rest == "" {
      assert after == "";
      assert value + "" == value;
    } else if !MentionsInput(rest, 0) {
      Regroup(value, after, " " + input);
    }
  }

  // ---------- The laws ----------

  lemma EmptyTemplate(sid: nat, jid: nat, input: string)
    ensures CommandLine("", sid, jid, input) == input
    ensures SubstituteFrom("", 0, sid, jid, input) == ""
  {
  }

  lemma OrdinaryCharacter(c: char, rest: string, sid: nat, jid: nat, input: string)
    requires c != '\\' && c != '{'
    ensures SubstituteFrom([c] + rest, 0, sid, jid, input) == [c] + SubstituteFrom(rest, 0, sid, jid, input)
    ensures CommandLine([c] + rest, sid, jid, input) == [c] + Onward(rest, sid, jid, input)
  {
    PieceThenRest([c], rest, [c], sid, jid, input);
  }

  /** A backslash and the character it hides stay as they are. */
  lemma HiddenCharacter(c: char, rest: string, sid: nat, jid: nat, input: string)
    ensures SubstituteFrom(['\\', c] + rest, 0, sid, jid, input) == ['\\', c] + SubstituteFrom(rest, 0, sid, jid, input)
    ensures CommandLine(['\\', c] + rest, sid, jid, input) == ['\\', c] + Onward(rest, sid, jid, input)
  {
    PieceThenRest(['\\', c], rest, ['\\', c], sid, jid, input);
  }

  lemma LastBackslash(sid: nat, jid: nat, input: string)
    ensures SubstituteFrom("\\", 0, sid, jid, input) == "\\"
    ensures CommandLine("\\", sid, jid, input) == "\\" + (" " + input)
  {
    assert "\\" + "" == "\\";
    PieceThenRest("\\", "", "\\", sid, jid, input);
    assert SubstituteFrom("", 0, sid, jid, input) == "";
  }

  /** Text without a closing brace that is not hidden. */
  predicate NeverCloses(text: string) {
    text == "" ||
    if text[0] == '\\' then |text| >= 2 && NeverCloses(text[2..])
    else text[0] != '}' && NeverCloses(text[1..])
  }

  lemma {:induction false} FindCloseAfter(before: string, text: string, rest: string)
    requires NeverCloses(text)
    ensures FindClose(before + text + rest, |before|) == FindClose(before + text + rest, |before| + |text|)
    decreases |text|
  {
    if text != "" {
      var n := if text[0] == '\\' then 2 else 1;
      FindCloseAfter(before + text[..n], text[n..], rest);
      assert before + text[..n] + text[n..] == before + text;
      var s := before + text + rest;
      assert s[|before|] == text[0];
      assert FindClose(s, |before|) == FindClose(s, |before| + n);
    }
  }

  lemma GroupPiece(text: string, rest: string)
    requires NeverCloses(text)
    ensures var group := "{" + text + "}";
            PieceAt(group + rest, 0) ==
            match GroupToken(group) case Some(token) => Group(token, |group|) case None => Literal(|group|)
  {
    var group := "{" + text + "}";
    var s := group + rest;
    FindCloseAfter("{", text, "}" + rest);
    assert s == "{" + text + ("}" + rest);
    assert s[1 + |text|] == '}';
    assert s[0..|text| + 2] == group;
  }

  /** The group that names the input is replaced by it, and then nothing is appended. */
  lemma InputGroup(rest: string, sid: nat, jid: nat, input: string)
    ensures SubstituteFrom("{}" + rest, 0, sid, jid, input) == input + SubstituteFrom(rest, 0, sid, jid, input)
    ensures CommandLine("{}" + rest, sid, jid, input) == input + SubstituteFrom(rest, 0, sid, jid, input)
  {
    hide PieceAt, CommandLine, SubstituteFrom;
    assert "{" + "" + "}" == "{}";
    GroupPiece("", rest);
    PieceThenRest("{}", rest, input, sid, jid, input);
  }

  lemma SlotGroup(rest: string, sid: nat, jid: nat, input: string)
    ensures SubstituteFrom("{%}" + rest, 0, sid, jid, input) == ToString(sid) + SubstituteFrom(rest, 0, sid, jid, input)
    ensures CommandLine("{%}" + rest, sid, jid, input) == ToString(sid) + Onward(rest, sid, jid, input)
  {
    hide PieceAt, CommandLine, SubstituteFrom, Onward;
    assert "{" + "%" + "}" == "{%}";
    GroupPiece("%", rest);
    PieceThenRest("{%}", rest, ToString(sid), sid, jid, input);
  }

  lemma JobGroup(rest: string, sid: nat, jid: nat, input: string)
    ensures SubstituteFrom("{#}" + rest, 0, sid, jid, input) == ToString(jid) + SubstituteFrom(rest, 0, sid, jid, input)
    ensures CommandLine("{#}" + rest, sid, jid, input) == ToString(jid) + Onward(rest, sid, jid, input)
  {
    hide PieceAt, CommandLine, SubstituteFrom, Onward;
    assert "{" + "#" + "}" == "{#}";
    GroupPiece("#", rest);
    PieceThenRest("{#}", rest, ToString(jid), sid, jid, input);
  }

  /** Any other group stays as it is, whatever is in it. */
  lemma OtherGroup(text: string, rest: string, sid: nat, jid: nat, input: string)
    requires NeverCloses(text) && text != "" && text != "%" && text != "#"
    ensures var group := "{" + text + "}";
            && SubstituteFrom(group + rest, 0, sid, jid, input) == group + SubstituteFrom(rest, 0, sid, jid, input)
            && CommandLine(group + rest, sid, jid, input) == group + Onward(rest, sid, jid, input)
  {
    hide PieceAt, CommandLine, SubstituteFrom, Onward;
    var group := "{" + text + "}";
    assert group[1..|group| - 1] == text;
    assert GroupToken(group) == None;
    GroupPiece(text, rest);
    PieceThenRest(group, rest, group, sid, jid, input);
  }

  /** A group that is never closed stays as it is, and is all that is left of the template. */
  lemma OpenEnd(text: string, backslash: bool, sid: nat, jid: nat, input: string)
    requires NeverCloses(text)
    ensures var s := "{" + text + if backslash then "\\" else "";
            && SubstituteFrom(s, 0, sid, jid, input) == s
            && CommandLine(s, sid, jid, input) == s + (" " + input)
  {
    var s := "{" + text + if backslash then "\\" else "";
    FindCloseAfter("{", text, if backslash then "\\" else "");
    assert FindClose(s, |s|) == |s|;
    assert s[0..] == s;
  }

  lemma {:induction false} TextOfGroup(s: string) returns (text: string)
    ensures NeverCloses(text)
    ensures text + "}" <= s || s == text || s == text + "\\"
    decreases |s|
  {
    if s == "" || s == "\\" || s[0] == '}' {
      text := "";
    } else {
      var n := if s[0] == '\\' then 2 else 1;
      var more := TextOfGroup(s[n..]);
      text := s[..n] + more;
      assert text[n..] == more;
      assert s == s[..n] + s[n..];
    }
  }

  /** The laws cover every template: one of them says how it begins. */
  lemma TemplateBegins(s: string)
    ensures || s == "" || s == "\\" || (s[0] != '\\' && s[0] != '{') || (s[0] == '\\' && |s| >= 2)
            || exists text :: NeverCloses(text) && ("{" + text + "}" <= s || s == "{" + text || s == "{" + text + "\\")
  {
    if s != "" && s[0] == '{' {
      var text := TextOfGroup(s[1..]);
      assert s == "{" + s[1..];
      assert "{" + (text + "}") == "{" + text + "}" && "{" + (text + "\\") == "{" + text + "\\";
      assert text + "}" <= s[1..] ==> "{" + (text + "}") <= s;
    }
  }

  // ---------- Groups anywhere ----------

  lemma RestMeans(s: string, i: nat, sid: nat, jid: nat, input: string)
    requires i <= |s|
    ensures SubstituteFrom(s, i, sid, jid, input) == SubstituteFrom(s[i..], 0, sid, jid, input)
  {
    hide SubstituteFrom;
    MeaningShift(s[..i], s[i..], 0, sid, jid, input);
    assert s[..i] + s[i..] == s;
  }

  lemma SplitGroup(s: string, i: nat, group: string)
    requires i + |group| <= |s| && s[i..i + |group|] == group
    ensures s[i..] == group + s[i + |group|..]
  {
  }

  lemma InputGroupAt(s: string, i: nat, sid: nat, jid: nat, input: string)
    requires i + 2 <= |s| && s[i..i + 2] == "{}"
    ensures SubstituteFrom(s, i, sid, jid, input) == input + SubstituteFrom(s, i + 2, sid, jid, input)
  {
    hide SubstituteFrom, CommandLine;
    SplitGroup(s, i, "{}");
    RestMeans(s, i, sid, jid, input);
    RestMeans(s, i + 2, sid, jid, input);
    InputGroup(s[i + 2..], sid, jid, input);
  }

  lemma SlotGroupAt(s: string, i: nat, sid: nat, jid: nat, input: string)
    requires i + 3 <= |s| && s[i..i + 3] == "{%}"
    ensures SubstituteFrom(s, i, sid, jid, input) == ToString(sid) + SubstituteFrom(s, i + 3, sid, jid, input)
  {
    hide SubstituteFrom, CommandLine, ToString, Onward;
    SplitGroup(s, i, "{%}");
    RestMeans(s, i, sid, jid, input);
    RestMeans(s, i + 3, sid, jid, input);
    SlotGroup(s[i + 3..], sid, jid, input);
  }

  lemma JobGroupAt(s: string, i: nat, sid: nat, jid: nat, input: string)
    requires i + 3 <= |s| && s[i..i + 3] == "{#}"
    ensures SubstituteFrom(s, i, sid, jid, input) == ToString(jid) + SubstituteFrom(s, i + 3, sid, jid, input)
  {
    hide SubstituteFrom, CommandLine, ToString, Onward;
    SplitGroup(s, i, "{#}");
    RestMeans(s, i, sid, jid, input);
    RestMeans(s, i + 3, sid, jid, input);
    JobGroup(s[i + 3..], sid, jid, input);
  }

  /** Where the scan meets a group, it puts the input, the slot's number or the job's number. */
  lemma GroupsMean(s: string, i: nat, sid: nat, jid: nat, input: string)
    ensures i + 2 <= |s| && s[i..i + 2] == "{}" ==>
              SubstituteFrom(s, i, sid, jid, input) == input + SubstituteFrom(s, i + 2, sid, jid, input)
    ensures i + 3 <= |s| && s[i..i + 3] == "{%}" ==>
              SubstituteFrom(s, i, sid, jid, input) == ToString(sid) + SubstituteFrom(s, i + 3, sid, jid, input)
    ensures i + 3 <= |s| && s[i..i + 3] == "{#}" ==>
              SubstituteFrom(s, i, sid, jid, input) == ToString(jid) + SubstituteFrom(s, i + 3, sid, jid, input)
  {
    hide SubstituteFrom, ToString;
    if i + 2 <= |s| && s[i..i + 2] == "{}" {
      InputGroupAt(s, i, sid, jid, input);
    }
    if i + 3 <= |s| && s[i..i + 3] == "{%}" {
      SlotGroupAt(s, i, sid, jid, input);
    }
    if i + 3 <= |s| && s[i..i + 3] == "{#}" {
      JobGroupAt(s, i, sid, jid, input);
    }
  }

  // ---------- Examples ----------

  /** Text without braces and backslashes comes first. */
  lemma {:induction false} OrdinaryText(text: string, rest: string, sid: nat, jid: nat, input: string)
    requires text != "" && forall k | 0 <= k < |text| :: text[k] != '\\' && text[k] != '{'
    ensures CommandLine(text + rest, sid, jid, input) == text + Onward(rest, sid, jid, input)
  {
    hide CommandLine;
    var c, more := text[0], text[1..];
    OrdinaryCharacter(c, more + rest, sid, jid, input);
    assert [c] + (more + rest) == text + rest;
    if more == "" {
      assert more + rest == rest;
    } else {
      OrdinaryText(more, rest, sid, jid, input);
      Regroup([c], more, Onward(rest, sid, jid, input));
      assert [c] + more == text;
    }
  }

  /** The client's own example. */
  lemma JobOnSlot(sid: nat, jid: nat, input: string)
    ensures CommandLine("echo job {#} on slot {%}: {}", sid, jid, input) ==
            "echo job " + (ToString(jid) + (" on slot " + (ToString(sid) + (": " + input))))
  {
    hide CommandLine, SubstituteFrom, ToString;
    var d := ": " + "{}";
    var c := " on slot " + ("{%}" + d);
    InputGroup("", sid, jid, input);
    EmptyTemplate(sid, jid, input);
    assert "{}" + "" == "{}" && input + "" == input;
    OrdinaryText(": ", "{}", sid, jid, input);
    SlotGroup(d, sid, jid, input);
    OrdinaryText(" on slot ", "{%}" + d, sid, jid, input);
    JobGroup(c, sid, jid, input);
    OrdinaryText("echo job ", "{#}" + c, sid, jid, input);
    assert "echo job {#} on slot {%}: {}" == "echo job " + ("{#}" + c);
  }
}
