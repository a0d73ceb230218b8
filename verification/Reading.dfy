/** Buffered reading from a connection: what a line takes, and what is thrown away with a reader. */
module Reading {
  import opened Utf8
  import Codec
  import opened Replies

  /** The receiving side of a connection: what each read will return, up to the end of the stream. */
  class Incoming {
    var chunks: seq<seq<Byte>>

    constructor (chunks: seq<seq<Byte>>)
      ensures this.chunks == chunks
    {
      this.chunks := chunks;
    }

    method Read() returns (data: seq<Byte>)
      modifies this
      ensures if old(chunks) == [] then data == [] && chunks == []
              else data == old(chunks)[0] && chunks == old(chunks)[1..]
    {
      data := [];
      if chunks != [] {
        data := chunks[0];
        chunks := chunks[1..];
      }
    }
  }

  /** A read returns something before the end of the stream. */
  predicate NoneEmpty(chunks: seq<seq<Byte>>) {
    forall k | 0 <= k < |chunks| :: chunks[k] != []
  }

  /** What a reader holds and what is still to come after `n` bytes have been taken: chunks are read
      only when the buffer is used up. */
  function After(buffer: seq<Byte>, chunks: seq<seq<Byte>>, n: nat): (seq<Byte>, seq<seq<Byte>>)
    decreases |chunks|
  {
    if n <= |buffer| then (buffer[n..], chunks)
    else if chunks == [] then ([], [])
    else After(chunks[0], chunks[1..], n - |buffer|)
  }

  lemma {:induction false} AfterTwice(buffer: seq<Byte>, chunks: seq<seq<Byte>>, n: nat, m: nat)
    ensures var (held, rest) := After(buffer, chunks, n);
            After(held, rest, m) == After(buffer, chunks, n + m)
    decreases |chunks|
  {
    if n > |buffer| && chunks != [] {
      AfterTwice(chunks[0], chunks[1..], n - |buffer|, m);
    }
  }

  lemma {:induction false} AfterIsDrop(buffer: seq<Byte>, chunks: seq<seq<Byte>>, n: nat)
    requires n <= |buffer + Codec.Flatten(chunks)|
    ensures var (held, rest) := After(buffer, chunks, n);
            held + Codec.Flatten(rest) == (buffer + Codec.Flatten(chunks))[n..]
    ensures NoneEmpty(chunks) ==> NoneEmpty(After(buffer, chunks, n).1)
    decreases |chunks|
  {
    if n > |buffer| && chunks != [] {
      AfterIsDrop(chunks[0], chunks[1..], n - |buffer|);
      assert (buffer + Codec.Flatten(chunks))[n..] == Codec.Flatten(chunks)[n - |buffer|..];
    }
  }

  class BufReader {
    const source: Incoming
    var buffer: seq<Byte>

    constructor (source: Incoming)
      ensures this.source == source && buffer == []
    {
      this.source := source;
      buffer := [];
    }

    /** The bytes still to be read. */
    ghost function Stream(): seq<Byte>
      reads this, source
    {
      buffer + Codec.Flatten(source.chunks)
    }

    method ReadLine() returns (line: seq<Byte>)
      requires NoneEmpty(source.chunks)
      modifies this, source
      ensures line == LineOf(old(Stream())) && Stream() == AfterLine(old(Stream()))
      ensures (buffer, source.chunks) == After(old(buffer), old(source.chunks), |line|)
      ensures NoneEmpty(source.chunks)
    {
      hide LineOf, AfterLine, After;
      line := [];
      NothingTaken(buffer, source.chunks);
      while true
        invariant NoneEmpty(source.chunks) && NEWLINE !in line
        invariant line + Stream() == old(Stream())
        invariant (buffer, source.chunks) == After(old(buffer), old(source.chunks), |line|)
        decreases |source.chunks| + if buffer == [] then 0 else 1
      {
        ghost var held, chunks := buffer, source.chunks;
        if buffer == [] {
          buffer := source.Read();
          if buffer == [] {
            LineAtEnd(line);
            break;
          }
        }
        var i := Codec.IndexOf(buffer, NEWLINE);
        var taken := if i < |buffer| then i + 1 else i;
        Take(held, chunks, buffer, source.chunks, taken);
        AfterTwice(old(buffer), old(source.chunks), |line|, taken);
        if i < |buffer| {
          LineEnds(line, buffer, Codec.Flatten(source.chunks), i);
          line := line + buffer[..i + 1];
          buffer := buffer[i + 1..];
          break;
        }
        TakeAll(line, buffer, Codec.Flatten(source.chunks));
        line := line + buffer;
        buffer := [];
      }
    }
  }

  lemma NothingTaken(buffer: seq<Byte>, chunks: seq<seq<Byte>>)
    ensures After(buffer, chunks, 0) == (buffer, chunks)
    ensures [] + (buffer + Codec.Flatten(chunks)) == buffer + Codec.Flatten(chunks)
  {
  }

  /** Taking from a buffer, or from the chunk that an empty buffer was filled with. */
  lemma Take(held: seq<Byte>, chunks: seq<seq<Byte>>, buffer: seq<Byte>, rest: seq<seq<Byte>>, n: nat)
    requires 0 < n <= |buffer|
    requires if held == [] then chunks != [] && buffer == chunks[0] && rest == chunks[1..] else buffer == held && rest == chunks
    ensures After(held, chunks, n) == (buffer[n..], rest)
    ensures held + Codec.Flatten(chunks) == buffer + Codec.Flatten(rest)
  {
  }

  lemma LineEnds(line: seq<Byte>, buffer: seq<Byte>, later: seq<Byte>, i: nat)
    requires NEWLINE !in line && i < |buffer| && buffer[i] == NEWLINE && NEWLINE !in buffer[..i]
    ensures var stream := line + (buffer + later);
            LineOf(stream) == line + buffer[..i + 1] && AfterLine(stream) == buffer[i + 1..] + later
  {
    var stream := line + (buffer + later);
    var k := |line| + i;
    assert stream[..k] == line + buffer[..i];
    Codec.IndexOfUnique(stream, NEWLINE, k);
    assert stream[..k + 1] == line + buffer[..i + 1];
  }

  lemma LineAtEnd(line: seq<Byte>)
    requires NEWLINE !in line
    ensures LineOf(line + ([] + Codec.Flatten([]))) == line && AfterLine(line + ([] + Codec.Flatten([]))) == []
  {
    assert line + ([] + Codec.Flatten([])) == line;
    assert line[..|line|] == line;
    Codec.IndexOfUnique(line, NEWLINE, |line|);
  }

  lemma TakeAll(line: seq<Byte>, buffer: seq<Byte>, later: seq<Byte>)
    ensures line + (buffer + later) == line + buffer + ([] + later)
    ensures buffer[|buffer|..] == []
  {
  }

  // ---------- What is lost with a reader ----------

  /** A reader holds nothing back exactly when what was taken ends with a chunk. */
  lemma {:induction false} NothingHeldIff(buffer: seq<Byte>, chunks: seq<seq<Byte>>, n: nat)
    requires n <= |buffer + Codec.Flatten(chunks)|
    ensures After(buffer, chunks, n).0 == [] <==> exists m :: 0 <= m <= |chunks| && |buffer + Codec.Flatten(chunks[..m])| == n
    decreases |chunks|
  {
    if n <= |buffer| {
      assert Codec.Flatten(chunks[..0]) == [];
      assert forall m | 0 <= m <= |chunks| :: |buffer + Codec.Flatten(chunks[..m])| >= |buffer|;
      if n == |buffer| {
        assert |buffer + Codec.Flatten(chunks[..0])| == n;
      }
    } else {
      NothingHeldIff(chunks[0], chunks[1..], n - |buffer|);
      forall m | 1 <= m <= |chunks|
        ensures chunks[0] + Codec.Flatten(chunks[1..][..m - 1]) == Codec.Flatten(chunks[..m])
      {
        assert chunks[..m][1..] == chunks[1..][..m - 1];
      }
      if m :| 0 <= m <= |chunks| && |buffer + Codec.Flatten(chunks[..m])| == n {
        assert m > 0;
        assert |chunks[0] + Codec.Flatten(chunks[1..][..m - 1])| == n - |buffer|;
      }
      if m :| 0 <= m <= |chunks[1..]| && |chunks[0] + Codec.Flatten(chunks[1..][..m])| == n - |buffer| {
        assert chunks[1..][..(m + 1) - 1] == chunks[1..][..m];
        assert |buffer + Codec.Flatten(chunks[..m + 1])| == n;
      }
    }
  }
}
