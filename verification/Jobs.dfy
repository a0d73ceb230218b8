/** Jobs as both ends have them, and the part of a slot's loop that turns one into a command line. */
module Jobs {
  import Tokenizer
  import Decimal
  import TemplateLaws

  datatype Job = Job(jid: nat, input: string)

  /** What running a command captures. */
  datatype Captured = Captured(status: nat, stdout: string, stderr: string)

  function IsJob(k: nat): Job -> nat {
    (job: Job) => if job.jid == k then 1 else 0
  }

  /** Refills the slot's buffer from the command's tokens. */
  method FillBuffer(tokens: seq<Tokenizer.Token>, sid: nat, jid: nat, input: string) returns (buffer: string)
    ensures buffer == Tokenizer.Expand(tokens, sid, jid, input)
    ensures forall template | tokens == Tokenizer.Tokenise(template) ::
              buffer == Tokenizer.CommandLine(template, sid, jid, input)
  {
    hide Tokenizer.Expand, Tokenizer.Tokenise, Tokenizer.CommandLine;
    buffer := "";
    NothingExpanded(sid, jid, input);
    for k := 0 to |tokens|
      invariant buffer == Tokenizer.Expand(tokens[..k], sid, jid, input)
    {
      OneMoreToken(tokens, k, sid, jid, input);
      match tokens[k] {
        case Placeholder => buffer := buffer + input;
        case Slot => buffer := buffer + Decimal.ToString(sid);
        case Job => buffer := buffer + Decimal.ToString(jid);
        case Text(text) => buffer := buffer + text;
      }
    }
    assert tokens[..|tokens|] == tokens;
    forall template | tokens == Tokenizer.Tokenise(template)
      ensures buffer == Tokenizer.CommandLine(template, sid, jid, input)
    {
      TemplateLaws.ExpandTokenised(template, sid, jid, input);
    }
  }

  lemma NothingExpanded(sid: nat, jid: nat, input: string)
    ensures forall tokens: seq<Tokenizer.Token> :: tokens == [] ==> Tokenizer.Expand(tokens, sid, jid, input) == ""
  {
  }

  lemma OneMoreToken(tokens: seq<Tokenizer.Token>, k: nat, sid: nat, jid: nat, input: string)
    requires k < |tokens|
    ensures Tokenizer.Expand(tokens[..k + 1], sid, jid, input) ==
            Tokenizer.Expand(tokens[..k], sid, jid, input) + Tokenizer.TokenValue(tokens[k], sid, jid, input)
  {
    hide Tokenizer.Expand;
    assert tokens[..k + 1] == tokens[..k] + [tokens[k]];
    TemplateLaws.ExpandConcat(tokens[..k], [tokens[k]], sid, jid, input);
    TemplateLaws.ExpandSingle(tokens[k], sid, jid, input);
  }
}
