/** Newline escaping of captured output: `escape` on the server, `unescape` on the client. */
module Escaping {
  import opened Sequences

  /** What `escape` computes: newlines become a backslash and the letter n.
      Backslashes are copied as they are, not doubled. */
  function Escaped(s: string): string {
    if s == "" then ""
    else (if s[0] == '\n' then "\\n" else [s[0]]) + Escaped(s[1..])
  }

  /** What a backslash and the character after it stand for. */
  function PairText(c: char): string {
    if c == '\\' then "\\" else if c == 'n' then "\n" else ['\\', c]
  }

  /** What `unescape` computes, two characters at a time after a backslash. */
  function Unescaped(s: string): string {
    if s == "" then ""
    else if s[0] == '\\' && |s| >= 2 then PairText(s[1]) + Unescaped(s[2..])
    else [s[0]] + Unescaped(s[1..])
  }

  lemma UnescapedPair(c: char, rest: string)
    ensures Unescaped(['\\', c] + rest) == PairText(c) + Unescaped(rest)
  {
    assert (['\\', c] + rest)[2..] == rest;
  }

  lemma UnescapedSingle(c: char, rest: string)
    requires c == '\\' ==> rest == ""
    ensures Unescaped([c] + rest) == [c] + Unescaped(rest)
  {
    assert ([c] + rest)[1..] == rest;
  }

  lemma EscapedCons(c: char, rest: string)
    ensures Escaped([c] + rest) == (if c == '\n' then ['\\', 'n'] else [c]) + Escaped(rest)
  {
    assert ([c] + rest)[1..] == rest;
  }

  method Escape(input: string) returns (output: string)
    ensures output == Escaped(input)
  {
    hide Escaped;
    var start := 0;
    output := "";
    ghost var done := "";
    Whole(input);
    for id := 0 to |input|
      invariant 0 <= start <= id
      invariant output + input[start..id] == done
      invariant done + Escaped(input[id..]) == Escaped(input)
    {
      AdvanceEscape(input, id, done);
      CopySingle(input, start, id, output);
      done := done + (if input[id] == '\n' then ['\\', 'n'] else [input[id]]);
      if input[id] == '\n' {
        output := output + input[start..id];
        output := output + "\\n";
        start := id + 1;
      } else if input[id] == '\\' {
        Regroup(output, input[start..id], input[id..id + 1]);
        output := output + input[start..id];
        start := id;
      }
    }
    NothingLeft(input, done);
    if start != |input| {
      output := output + input[start..];
    }
  }

  lemma AdvanceEscape(s: string, i: nat, done: string)
    requires i < |s|
    requires done + Escaped(s[i..]) == Escaped(s)
    ensures done + (if s[i] == '\n' then ['\\', 'n'] else [s[i]]) + Escaped(s[i + 1..]) == Escaped(s)
  {
    Split(s, i, 1);
    EscapedCons(s[i], s[i + 1..]);
    Regroup(done, if s[i] == '\n' then ['\\', 'n'] else [s[i]], Escaped(s[i + 1..]));
  }

  lemma Whole(s: string)
    ensures "" + Escaped(s[0..]) == Escaped(s)
    ensures "" + Unescaped(s[0..]) == Unescaped(s)
  {
    assert s[0..] == s;
  }

  lemma NothingLeft(s: string, done: string)
    ensures done + Escaped(s[|s|..]) == done
    ensures done + Unescaped(s[|s|..]) == done
  {
  }

  lemma Split(s: string, i: nat, n: nat)
    requires i + n <= |s| && 1 <= n <= 2
    ensures s[i..] == (if n == 1 then [s[i]] else [s[i], s[i + 1]]) + s[i + n..]
  {
  }

  method Unescape(input: string) returns (text: string)
    ensures text == Unescaped(input)
  {
    hide Unescaped;
    var start := 0;
    text := "";
    var i := 0;
    ghost var done := "";
    Whole(input);
    while i < |input|
      invariant 0 <= start <= i <= |input|
      invariant text + input[start..i] == done
      invariant done + Unescaped(input[i..]) == Unescaped(input)
    {
      var id, character := i, input[i];
      i := i + 1;
      if character == '\\' && i < |input| {
        var nchar := input[i];
        i := i + 1;
        AdvancePair(input, id, done);
        CopyPair(input, start, id, text);
        if nchar == '\\' {
          text := text + input[start..id + 1];
          start := id + 2;
        } else if nchar == 'n' {
          text := text + input[start..id];
          text := text + "\n";
          start := id + 2;
        }
        done := done + PairText(nchar);
      } else {
        AdvanceSingle(input, id, done);
        CopySingle(input, start, id, text);
        done := done + [character];
      }
    }
    NothingLeft(input, done);
    if start != |input| {
      text := text + input[start..];
    }
  }

  lemma CopySingle(s: string, start: nat, i: nat, text: string)
    requires start <= i < |s|
    ensures text + s[start..i + 1] == text + s[start..i] + [s[i]]
    ensures forall t: string {:trigger t + s[i + 1..i + 1]} :: t + s[i + 1..i + 1] == t
  {
  }

  lemma CopyPair(s: string, start: nat, i: nat, text: string)
    requires start <= i && i + 1 < |s|
    ensures text + s[start..i + 1] == text + s[start..i] + [s[i]]
    ensures text + s[start..i + 2] == text + s[start..i] + [s[i], s[i + 1]]
    ensures forall t: string {:trigger t + s[i + 2..i + 2]} :: t + s[i + 2..i + 2] == t
  {
  }

  lemma AdvancePair(s: string, i: nat, done: string)
    requires i + 1 < |s| && s[i] == '\\'
    requires done + Unescaped(s[i..]) == Unescaped(s)
    ensures done + PairText(s[i + 1]) + Unescaped(s[i + 2..]) == Unescaped(s)
  {
    Split(s, i, 2);
    UnescapedPair(s[i + 1], s[i + 2..]);
    Regroup(done, PairText(s[i + 1]), Unescaped(s[i + 2..]));
  }

  lemma AdvanceSingle(s: string, i: nat, done: string)
    requires i < |s| && (s[i] == '\\' ==> i + 1 == |s|)
    requires done + Unescaped(s[i..]) == Unescaped(s)
    ensures done + [s[i]] + Unescaped(s[i + 1..]) == Unescaped(s)
  {
    Split(s, i, 1);
    UnescapedSingle(s[i], s[i + 1..]);
    Regroup(done, [s[i]], Unescaped(s[i + 1..]));
  }

  /** The text that survives the two: no backslash directly before a backslash,
      the letter n or a newline. */
  predicate Transparent(s: string) {
    forall k :: 0 <= k < |s| - 1 && s[k] == '\\' ==> s[k + 1] !in {'\\', 'n', '\n'}
  }

  lemma {:induction false} EscapedHasNoNewline(s: string)
    ensures '\n' !in Escaped(s)
  {
    if s != "" {
      EscapedHasNoNewline(s[1..]);
    }
  }

  /** One step of the composition, for each way a text can begin. */
  lemma RoundTripStep(s: string)
    requires s != "" && (s[0] == '\\' ==> |s| == 1)
    ensures Unescaped(Escaped(s)) == [s[0]] + Unescaped(Escaped(s[1..]))
  {
    var rest := Escaped(s[1..]);
    if s[0] == '\n' {
      assert Escaped(s) == "\\n" + rest;
      assert ("\\n" + rest)[2..] == rest;
    } else {
      assert Escaped(s) == [s[0]] + rest;
      assert ([s[0]] + rest)[1..] == rest;
    }
  }

  lemma EscapedPair(s: string)
    requires |s| >= 2 && s[0] == '\\'
    ensures Escaped(s) ==
            ['\\'] + ((if s[1] == '\n' then ['\\', 'n'] else [s[1]]) + Escaped(s[2..]))
  {
    Split(s, 0, 1);
    Split(s, 1, 1);
    EscapedCons(s[0], s[1..]);
    EscapedCons(s[1], s[2..]);
  }

  lemma RoundTripPair(s: string)
    requires |s| >= 2 && s[0] == '\\'
    ensures var rest := Unescaped(Escaped(s[2..]));
            Unescaped(Escaped(s)) ==
            if s[1] == '\n' then ['\\'] + (['n'] + rest) else PairText(s[1]) + rest
  {
    var rest := Escaped(s[2..]);
    EscapedPair(s);
    if s[1] == '\n' {
      Regroup(['\\'], ['\\', 'n'], rest);
      Regroup(['\\', '\\'], ['n'], rest);
      UnescapedPair('\\', ['n'] + rest);
      UnescapedSingle('n', rest);
    } else {
      Regroup(['\\'], [s[1]], rest);
      UnescapedPair(s[1], rest);
    }
  }

  lemma {:induction false} RoundTripNeverGrows(s: string)
    ensures |Unescaped(Escaped(s))| <= |s|
    decreases |s|
  {
    if s != "" {
      if s[0] == '\\' && |s| >= 2 {
        RoundTripPair(s);
        RoundTripNeverGrows(s[2..]);
      } else {
        RoundTripStep(s);
        RoundTripNeverGrows(s[1..]);
      }
    }
  }

  lemma TransparentStep(s: string, k: nat)
    requires k <= |s| && (k == 1 || k == 2) && (k == 2 ==> s[1] != '\\')
    ensures Transparent(s) <==>
            Transparent(s[k..]) && (s[0] == '\\' && |s| >= 2 ==> s[1] !in {'\\', 'n', '\n'})
  {
    var t := s[k..];
    if Transparent(s) {
      forall j | 0 <= j < |t| - 1 && t[j] == '\\'
        ensures t[j + 1] !in {'\\', 'n', '\n'}
      {
        assert s[j + k] == '\\' && s[j + k + 1] == t[j + 1];
      }
    }
    if Transparent(t) && (s[0] == '\\' && |s| >= 2 ==> s[1] !in {'\\', 'n', '\n'}) {
      forall j | 0 <= j < |s| - 1 && s[j] == '\\'
        ensures s[j + 1] !in {'\\', 'n', '\n'}
      {
        if j >= k {
          assert t[j - k] == '\\' && t[j - k + 1] == s[j + 1];
        }
      }
    }
  }

  /** The client recovers captured output exactly when it is transparent. */
  lemma {:induction false} UnescapeEscape(s: string)
    ensures Unescaped(Escaped(s)) == s <==> Transparent(s)
    decreases |s|
  {
    if s != "" {
      var r := Unescaped(Escaped(s));
      if s[0] == '\\' && |s| >= 2 {
        RoundTripPair(s);
        if s[1] == '\\' {
          RoundTripNeverGrows(s[2..]);
          assert |r| < |s|;
        } else if s[1] == 'n' {
          assert r[0] == '\n';
        } else if s[1] == '\n' {
          assert r[1] == 'n';
        } else {
          UnescapeEscape(s[2..]);
          TransparentStep(s, 2);
          assert s == s[..2] + s[2..];
          assert r[2..] == Unescaped(Escaped(s[2..]));
        }
      } else {
        RoundTripStep(s);
        UnescapeEscape(s[1..]);
        TransparentStep(s, 1);
        assert s == [s[0]] + s[1..];
        assert r[1..] == Unescaped(Escaped(s[1..]));
      }
    }
  }
}
