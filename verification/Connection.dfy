/** Retry control of the client: opening a connection and writing an instruction. */
module Connection {
  import opened Utf8

  // ---------- Opening a connection ----------

  datatype Attempt = Connected | UnableToConnect | TlsFailed

  /** How many of the first `n` TCP attempts succeed. */
  ghost function Successes(tcp: nat -> bool, n: nat): (k: nat)
    ensures k <= n
  {
    if n == 0 then 0 else Successes(tcp, n - 1) + if tcp(n - 1) then 1 else 0
  }

  /** TCP attempt `m` succeeds before the fourth TCP failure, and the TLS attempt made on it is
      the first to succeed and comes before the fourth TLS failure. */
  ghost predicate ConnectsAt(tcp: nat -> bool, tls: nat -> bool, m: nat) {
    var s := Successes(tcp, m);
    && tcp(m) && m - s <= 3
    && tls(s) && s <= 3 && forall j | 0 <= j < s :: !tls(j)
  }

  lemma {:induction false} SuccessesGrow(tcp: nat -> bool, m: nat, n: nat)
    requires m <= n
    ensures Successes(tcp, m) <= Successes(tcp, n)
    ensures m - Successes(tcp, m) <= n - Successes(tcp, n)
    decreases n - m
  {
    if m < n {
      SuccessesGrow(tcp, m, n - 1);
    }
  }

  lemma NoSuccessesYet(tcp: nat -> bool)
    ensures Successes(tcp, 0) == 0
  {
  }

  lemma OneMore(tcp: nat -> bool, tls: nat -> bool, n: nat)
    ensures Successes(tcp, n + 1) == Successes(tcp, n) + if tcp(n) then 1 else 0
    ensures var s := Successes(tcp, n);
            ConnectsAt(tcp, tls, n) <==>
            tcp(n) && n - s <= 3 && tls(s) && s <= 3 && forall j | 0 <= j < s :: !tls(j)
  {
  }

  /** No attempt connects once one of the two budgets is spent. */
  lemma TooLate(tcp: nat -> bool, tls: nat -> bool, n: nat)
    requires n - Successes(tcp, n) >= 4 || Successes(tcp, n) >= 4
    ensures forall m: nat | m >= n :: !ConnectsAt(tcp, tls, m)
  {
    forall m: nat | m >= n
      ensures !ConnectsAt(tcp, tls, m)
    {
      SuccessesGrow(tcp, n, m);
    }
  }

  /** The `k`-th TCP and TLS attempts end as `tcp(k)` and `tls(k)` say. The inner loop does not
      reset its count of failures, so the two budgets of three retries are spent once. */
  method AttemptConnection(tcp: nat -> bool, tls: nat -> bool)
    returns (result: Attempt, tcpCalls: nat, tlsCalls: nat, sleeps: nat)
    ensures result.Connected? <==> exists m: nat :: ConnectsAt(tcp, tls, m)
    ensures result.Connected? ==> tcpCalls > 0 && ConnectsAt(tcp, tls, tcpCalls - 1)
    ensures result.UnableToConnect? ==> tcpCalls - Successes(tcp, tcpCalls) == 4
    ensures result.TlsFailed? ==> tlsCalls == 4 && forall j | 0 <= j < 4 :: !tls(j)
    ensures tcpCalls <= 7 && tlsCalls <= 4 && sleeps <= 6
  {
    hide ConnectsAt, Successes;
    NoSuccessesYet(tcp);
    var ctries, etries := 0, 0;
    tcpCalls, tlsCalls, sleeps := 0, 0, 0;
    while true
      invariant ctries <= 3 && etries <= 3 && sleeps == ctries + etries
      invariant tlsCalls == etries == Successes(tcp, tcpCalls) && tcpCalls == ctries + etries
      invariant forall j | 0 <= j < tlsCalls :: !tls(j)
      invariant forall m: nat | m < tcpCalls :: !ConnectsAt(tcp, tls, m)
      decreases 3 - etries
    {
      while true
        invariant ctries <= 3 && etries <= 3 && sleeps == ctries + etries
        invariant tlsCalls == etries == Successes(tcp, tcpCalls) && tcpCalls == ctries + etries
        invariant forall m: nat | m < tcpCalls :: !ConnectsAt(tcp, tls, m)
        decreases 3 - ctries
      {
        OneMore(tcp, tls, tcpCalls);
        tcpCalls := tcpCalls + 1;
        if tcp(tcpCalls - 1) {
          break;
        }
        if ctries == 3 {
          TooLate(tcp, tls, tcpCalls);
          return UnableToConnect, tcpCalls, tlsCalls, sleeps;
        }
        ctries := ctries + 1;
        sleeps := sleeps + 1;
      }
      tlsCalls := tlsCalls + 1;
      if tls(tlsCalls - 1) {
        return Connected, tcpCalls, tlsCalls, sleeps;
      }
      if etries == 3 {
        TooLate(tcp, tls, tcpCalls);
        return TlsFailed, tcpCalls, tlsCalls, sleeps;
      }
      etries := etries + 1;
      sleeps := sleeps + 1;
    }
  }

  // ---------- Writing ----------

  /** One `write_all` call: everything went out, or the connection broke after `accepted` bytes. */
  datatype WriteResult = Sent | Broke(accepted: nat)

  class Wire {
    var sent: seq<Byte>

    method WriteAll(data: seq<Byte>, w: WriteResult) returns (ok: bool)
      modifies this
      ensures ok == w.Sent?
      ensures sent == old(sent) + Part(data, w)
    {
      sent := sent + Part(data, w);
      ok := w.Sent?;
    }
  }

  function Part(data: seq<Byte>, w: WriteResult): seq<Byte> {
    if w.Sent? || w.accepted >= |data| then data else data[..w.accepted]
  }

  /** A call that succeeds puts out all, one that breaks no more than it says, from the beginning. */
  lemma PartOf(data: seq<Byte>, w: WriteResult)
    ensures Part(data, w) <= data
    ensures |Part(data, w)| == if w.Broke? && w.accepted < |data| then w.accepted else |data|
  {
  }

  /** What reaches the wire in the first `n` calls of a retried write. */
  function Written(data: seq<Byte>, net: nat -> WriteResult, n: nat): seq<Byte> {
    if n == 0 then [] else Written(data, net, n - 1) + Part(data, net(n - 1))
  }

  /** Four calls are made at most; the last one made is the only one that may succeed. */
  method AttemptWrite(wire: Wire, data: seq<Byte>, net: nat -> WriteResult) returns (ok: bool, calls: nat)
    modifies wire
    ensures 1 <= calls <= 4
    ensures forall k: nat | k < calls - 1 :: !net(k).Sent?
    ensures if ok then net(calls - 1).Sent? else calls == 4 && !net(3).Sent?
    ensures wire.sent == old(wire.sent) + Written(data, net, calls)
  {
    var tries := 0;
    calls := 0;
    while true
      invariant calls == tries <= 3
      invariant forall k: nat | k < calls :: !net(k).Sent?
      invariant wire.sent == old(wire.sent) + Written(data, net, calls)
      decreases 3 - tries
    {
      ok := wire.WriteAll(data, net(calls));
      calls := calls + 1;
      if !ok {
        if tries == 3 {
          return;
        }
        tries := tries + 1;
        continue;
      }
      break;
    }
  }

  lemma {:induction false} WrittenLength(data: seq<Byte>, net: nat -> WriteResult, n: nat, k: nat)
    requires k < n
    ensures |Written(data, net, n)| >= |Part(data, net(k))|
    ensures k < n - 1 ==> |Written(data, net, n)| >= |Part(data, net(k))| + |Part(data, net(n - 1))|
  {
    if k < n - 1 {
      WrittenLength(data, net, n - 1, k);
    }
  }

  lemma {:induction false} WrittenNothing(data: seq<Byte>, net: nat -> WriteResult, n: nat)
    requires forall k: nat | k < n :: Part(data, net(k)) == []
    ensures Written(data, net, n) == []
  {
    if n > 0 {
      WrittenNothing(data, net, n - 1);
    }
  }

  /** A retried write puts the instruction on the wire once and whole exactly when no failed
      call had already put out a part of it. */
  lemma CleanWrite(data: seq<Byte>, net: nat -> WriteResult, calls: nat)
    requires calls >= 1 && net(calls - 1).Sent?
    ensures Written(data, net, calls) == data
            <==> forall k: nat | k < calls - 1 :: Part(data, net(k)) == []
  {
    if forall k: nat | k < calls - 1 :: Part(data, net(k)) == [] {
      WrittenNothing(data, net, calls - 1);
      assert [] + data == data;
    } else {
      var k: nat :| k < calls - 1 && Part(data, net(k)) != [];
      WrittenLength(data, net, calls, k);
    }
  }
}
