/** The periodic count over all clients: totals, and what was new since the last tick. */
module Counting {
  import L = Latency

  /**
   What the three loads of one counter of one client return: for the total, for the difference and for the new
   baseline. Other goroutines may count up between them.
   */
  datatype Loads = Loads(total: int, delta: int, base: int)

  /** The loads of one client in one tick. */
  datatype Reads = Reads(send: Loads, sendBytes: Loads, recv: Loads, recvBytes: Loads, success: int, errors: int)

  class CountedClient {
    var preSendCount: int
    var preSendBytes: int
    var preRecv: int
    var preRecvBytes: int

    constructor ()
      ensures Baselines() == Base(0, 0, 0, 0)
    {
      preSendCount, preSendBytes, preRecv, preRecvBytes := 0, 0, 0, 0;
    }

    function Baselines(): Base
      reads this
    {
      Base(preSendCount, preSendBytes, preRecv, preRecvBytes)
    }
  }

  datatype Base = Base(send: int, sendBytes: int, recv: int, recvBytes: int)

  /** A total over all clients, and how much of it is new. */
  datatype Tally = Tally(total: int, batch: int)

  datatype Report = Report(send: Tally, sendBytes: Tally, recv: Tally, recvBytes: Tally, success: int, errors: int)

  function Add(t: Tally, loads: Loads, base: int): Tally { Tally(t.total + loads.total, t.batch + (loads.delta - base)) }

  /** The report of a tick that found the baselines `bases`. */
  function Counted(bases: seq<Base>, samples: seq<Reads>): Report
    requires |bases| == |samples|
  {
    if samples == [] then Report(Tally(0, 0), Tally(0, 0), Tally(0, 0), Tally(0, 0), 0, 0)
    else
      var n := |samples| - 1;
      var r, x, b := Counted(bases[..n], samples[..n]), samples[n], bases[n];
      Report(Add(r.send, x.send, b.send), Add(r.sendBytes, x.sendBytes, b.sendBytes),
             Add(r.recv, x.recv, b.recv), Add(r.recvBytes, x.recvBytes, b.recvBytes),
             r.success + x.success, r.errors + x.errors)
  }

  /** The rates the server publishes for a tick. */
  datatype Rates = Rates(send: int, sendBytes: int, recv: int, recvBytes: int)

  function RatesOf(r: Report, interval: int): Rates
    requires interval > 0
  {
    Rates(L.Quotient(r.send.batch, interval), L.Quotient(r.sendBytes.batch, interval),
          L.Quotient(r.recv.batch, interval), L.Quotient(r.recvBytes.batch, interval))
  }

  /** `countMsg`: one pass over the clients that adds up and moves every baseline to its last load. */
  method CountMsg(clients: seq<CountedClient>, samples: seq<Reads>, interval: int) returns (r: Report, rates: Rates)
    requires |clients| == |samples| && interval > 0
    requires forall i, j :: 0 <= i < j < |clients| ==> clients[i] != clients[j]
    modifies set c | c in clients
    ensures r == Counted(old(BasesOf(clients)), samples) && rates == RatesOf(r, interval)
    ensures BasesOf(clients) == NewBases(samples)
    ensures forall k :: 0 <= k < |clients| ==>
              && clients[k].preSendCount == samples[k].send.base && clients[k].preSendBytes == samples[k].sendBytes.base
              && clients[k].preRecv == samples[k].recv.base && clients[k].preRecvBytes == samples[k].recvBytes.base
    ensures forall c: Column :: c.In(r).total == TotalSum(Totals(c, samples))
    ensures forall c: Column :: c.In(r).batch == DeltaSum(c, samples) - BaseSum(c, old(BasesOf(clients)))
    ensures r.success == TotalSum(Successes(samples)) && r.errors == TotalSum(Errors(samples))
    ensures Truncated(rates.send, r.send.batch, interval) && Truncated(rates.sendBytes, r.sendBytes.batch, interval)
    ensures Truncated(rates.recv, r.recv.batch, interval) && Truncated(rates.recvBytes, r.recvBytes.batch, interval)
  {
    var send, sendBytes, recv, recvBytes := Tally(0, 0), Tally(0, 0), Tally(0, 0), Tally(0, 0);
    var success, errors := 0, 0;
    ghost var bases := BasesOf(clients);
    hide Counted;
    CountNone(bases, samples);
    for i := 0 to |clients|
      invariant forall k :: 0 <= k < i ==> clients[k].Baselines() == NewBase(samples[k])
      invariant forall k :: i <= k < |clients| ==> clients[k].Baselines() == bases[k]
      invariant Report(send, sendBytes, recv, recvBytes, success, errors) == Counted(bases[..i], samples[..i])
    {
      var c, x := clients[i], samples[i];
      CountOne(bases, samples, i);
      assert bases[i] == c.Baselines();
      send := Add(send, x.send, c.preSendCount);
      c.preSendCount := x.send.base;
      success := success + x.success;
      errors := errors + x.errors;
      sendBytes := Add(sendBytes, x.sendBytes, c.preSendBytes);
      c.preSendBytes := x.sendBytes.base;
      recv := Add(recv, x.recv, c.preRecv);
      recvBytes := Add(recvBytes, x.recvBytes, c.preRecvBytes);
      c.preRecv := x.recv.base;
      c.preRecvBytes := x.recvBytes.base;
    }
    assert bases[..|clients|] == bases && samples[..|clients|] == samples;
    assert BasesOf(clients) == NewBases(samples);
    hide *;
    ReportMeans(bases, samples);
    r := Report(send, sendBytes, recv, recvBytes, success, errors);
    rates := RatesOf(r, interval);
    RatesMean(r, interval);
  }

  lemma CountNone(bases: seq<Base>, samples: seq<Reads>)
    requires |bases| == |samples|
    ensures Counted(bases[..0], samples[..0]) == Report(Tally(0, 0), Tally(0, 0), Tally(0, 0), Tally(0, 0), 0, 0)
  {
  }

  lemma CountOne(bases: seq<Base>, samples: seq<Reads>, i: nat)
    requires |bases| == |samples| && i < |samples|
    ensures var r, x, b := Counted(bases[..i], samples[..i]), samples[i], bases[i];
            Counted(bases[..i + 1], samples[..i + 1]) ==
            Report(Add(r.send, x.send, b.send), Add(r.sendBytes, x.sendBytes, b.sendBytes),
                   Add(r.recv, x.recv, b.recv), Add(r.recvBytes, x.recvBytes, b.recvBytes),
                   r.success + x.success, r.errors + x.errors)
  {
    assert bases[..i + 1][..i] == bases[..i] && samples[..i + 1][..i] == samples[..i];
  }

  /** `q` is `a` divided by `b`, rounded toward zero. */
  predicate Truncated(q: int, a: int, b: int) { if a >= 0 then 0 <= a - q * b < b else -b < a - q * b <= 0 }

  function Totals(c: Column, samples: seq<Reads>): seq<int> {
    seq(|samples|, i requires 0 <= i < |samples| => c.Of(samples[i]).total)
  }

  function Successes(samples: seq<Reads>): seq<int> { seq(|samples|, i requires 0 <= i < |samples| => samples[i].success) }

  function Errors(samples: seq<Reads>): seq<int> { seq(|samples|, i requires 0 <= i < |samples| => samples[i].errors) }

  /** The report column by column. */
  lemma ReportMeans(bases: seq<Base>, samples: seq<Reads>)
    requires |bases| == |samples|
    ensures forall c: Column :: c.In(Counted(bases, samples)).total == TotalSum(Totals(c, samples))
    ensures forall c: Column :: c.In(Counted(bases, samples)).batch == DeltaSum(c, samples) - BaseSum(c, bases)
    ensures Counted(bases, samples).success == TotalSum(Successes(samples))
    ensures Counted(bases, samples).errors == TotalSum(Errors(samples))
  {
    forall c: Column
      ensures c.In(Counted(bases, samples)).total == TotalSum(Totals(c, samples))
      ensures c.In(Counted(bases, samples)).batch == DeltaSum(c, samples) - BaseSum(c, bases)
    {
      TotalIsSum(c, bases, samples);
      BatchIsDelta(c, bases, samples);
    }
    OutcomesAreSums(bases, samples);
  }

  lemma {:induction false} TotalIsSum(c: Column, bases: seq<Base>, samples: seq<Reads>)
    requires |bases| == |samples|
    ensures c.In(Counted(bases, samples)).total == TotalSum(Totals(c, samples))
  {
    if samples != [] {
      var n := |samples| - 1;
      TotalIsSum(c, bases[..n], samples[..n]);
      assert Totals(c, samples)[..n] == Totals(c, samples[..n]);
    }
  }

  lemma {:induction false} OutcomesAreSums(bases: seq<Base>, samples: seq<Reads>)
    requires |bases| == |samples|
    ensures Counted(bases, samples).success == TotalSum(Successes(samples))
    ensures Counted(bases, samples).errors == TotalSum(Errors(samples))
  {
    if samples != [] {
      var n := |samples| - 1;
      OutcomesAreSums(bases[..n], samples[..n]);
      assert Successes(samples)[..n] == Successes(samples[..n]) && Errors(samples)[..n] == Errors(samples[..n]);
    }
  }

  lemma RatesMean(r: Report, interval: int)
    requires interval > 0
    ensures var rates := RatesOf(r, interval);
            && Truncated(rates.send, r.send.batch, interval) && Truncated(rates.sendBytes, r.sendBytes.batch, interval)
            && Truncated(rates.recv, r.recv.batch, interval) && Truncated(rates.recvBytes, r.recvBytes.batch, interval)
  {
    L.QuotientTruncates(r.send.batch, interval);
    L.QuotientTruncates(r.sendBytes.batch, interval);
    L.QuotientTruncates(r.recv.batch, interval);
    L.QuotientTruncates(r.recvBytes.batch, interval);
    hide L.Quotient;
  }

  function BasesOf(clients: seq<CountedClient>): seq<Base>
    reads set c | c in clients
  {
    seq(|clients|, i requires 0 <= i < |clients| reads set c | c in clients => clients[i].Baselines())
  }

  function NewBase(x: Reads): Base { Base(x.send.base, x.sendBytes.base, x.recv.base, x.recvBytes.base) }

  function NewBases(samples: seq<Reads>): seq<Base> { seq(|samples|, i requires 0 <= i < |samples| => NewBase(samples[i])) }

  // ---- telescoping ----

  /** The four counters that are differenced. */
  datatype Column = Send | SendBytes | Recv | RecvBytes {
    function Of(x: Reads): Loads {
      match this case Send => x.send case SendBytes => x.sendBytes case Recv => x.recv case RecvBytes => x.recvBytes
    }

    function At(b: Base): int {
      match this case Send => b.send case SendBytes => b.sendBytes case Recv => b.recv case RecvBytes => b.recvBytes
    }

    function In(r: Report): Tally {
      match this case Send => r.send case SendBytes => r.sendBytes case Recv => r.recv case RecvBytes => r.recvBytes
    }
  }

  /** Sums over the clients: what the baselines know, and the loads for difference and baseline. */
  function BaseSum(c: Column, bases: seq<Base>): int {
    if bases == [] then 0 else BaseSum(c, bases[..|bases| - 1]) + c.At(bases[|bases| - 1])
  }

  function DeltaSum(c: Column, samples: seq<Reads>): int {
    if samples == [] then 0 else DeltaSum(c, samples[..|samples| - 1]) + c.Of(samples[|samples| - 1]).delta
  }

  /** What was counted between the load for the difference and the load for the baseline, over all clients. */
  function Slip(c: Column, samples: seq<Reads>): int {
    if samples == [] then 0
    else Slip(c, samples[..|samples| - 1]) + (c.Of(samples[|samples| - 1]).base - c.Of(samples[|samples| - 1]).delta)
  }

  lemma {:induction false} BatchIsDelta(c: Column, bases: seq<Base>, samples: seq<Reads>)
    requires |bases| == |samples|
    ensures c.In(Counted(bases, samples)).batch == DeltaSum(c, samples) - BaseSum(c, bases)
  {
    if samples != [] {
      BatchIsDelta(c, bases[..|samples| - 1], samples[..|samples| - 1]);
    }
  }

  /** The published total is the sum of the first loads, and never above what the new baselines know. */
  lemma {:induction false} TotalBelowBase(c: Column, bases: seq<Base>, samples: seq<Reads>)
    requires |bases| == |samples| && Growing(c, samples)
    ensures c.In(Counted(bases, samples)).total == TotalSum(seq(|samples|, i requires 0 <= i < |samples| => c.Of(samples[i]).total))
    ensures c.In(Counted(bases, samples)).total <= BaseSum(c, NewBases(samples))
  {
    if samples != [] {
      var n := |samples| - 1;
      TotalBelowBase(c, bases[..n], samples[..n]);
      assert NewBases(samples)[..n] == NewBases(samples[..n]);
      var totals := seq(|samples|, i requires 0 <= i < |samples| => c.Of(samples[i]).total);
      assert totals[..n] == seq(n, i requires 0 <= i < n => c.Of(samples[..n][i]).total);
    }
  }

  lemma {:induction false} BaseIsDeltaAndSlip(c: Column, samples: seq<Reads>)
    ensures BaseSum(c, NewBases(samples)) == DeltaSum(c, samples) + Slip(c, samples)
  {
    if samples != [] {
      var n := |samples| - 1;
      BaseIsDeltaAndSlip(c, samples[..n]);
      assert NewBases(samples)[..n] == NewBases(samples[..n]);
    }
  }

  predicate SameClients(ticks: seq<seq<Reads>>, n: nat) { forall t :: 0 <= t < |ticks| ==> |ticks[t]| == n }

  /** The baselines after a run of ticks. */
  function After(bases: seq<Base>, ticks: seq<seq<Reads>>): seq<Base> {
    if ticks == [] then bases else NewBases(ticks[|ticks| - 1])
  }

  /** The sum of `batchSend` over a run of ticks. */
  function BatchSum(c: Column, bases: seq<Base>, ticks: seq<seq<Reads>>): int
    requires SameClients(ticks, |bases|)
  {
    if ticks == [] then 0
    else
      var prev := ticks[..|ticks| - 1];
      BatchSum(c, bases, prev) + c.In(Counted(After(bases, prev), ticks[|ticks| - 1])).batch
  }

  function SlipSum(c: Column, ticks: seq<seq<Reads>>): int {
    if ticks == [] then 0 else SlipSum(c, ticks[..|ticks| - 1]) + Slip(c, ticks[|ticks| - 1])
  }

  /** Each tick takes off what the last one noted, so only the slips and the ends remain. */
  lemma {:induction false} Telescopes(c: Column, bases: seq<Base>, ticks: seq<seq<Reads>>)
    requires SameClients(ticks, |bases|)
    ensures BatchSum(c, bases, ticks) == BaseSum(c, After(bases, ticks)) - BaseSum(c, bases) - SlipSum(c, ticks)
  {
    if ticks != [] {
      var prev, last := ticks[..|ticks| - 1], ticks[|ticks| - 1];
      Telescopes(c, bases, prev);
      BatchIsDelta(c, After(bases, prev), last);
      BaseIsDeltaAndSlip(c, last);
    }
  }

  /** Loads of a counter that only grows. */
  predicate Growing(c: Column, samples: seq<Reads>) {
    forall k :: 0 <= k < |samples| ==> c.Of(samples[k]).total <= c.Of(samples[k]).delta <= c.Of(samples[k]).base
  }

  function TotalSum(now: seq<int>): int {
    if now == [] then 0 else TotalSum(now[..|now| - 1]) + now[|now| - 1]
  }

  lemma {:induction false} SlipNotNegative(c: Column, samples: seq<Reads>)
    requires Growing(c, samples)
    ensures Slip(c, samples) >= 0
  {
    if samples != [] {
      SlipNotNegative(c, samples[..|samples| - 1]);
    }
  }

  lemma {:induction false} SlipSumNotNegative(c: Column, ticks: seq<seq<Reads>>)
    requires forall t :: 0 <= t < |ticks| ==> Growing(c, ticks[t])
    ensures SlipSum(c, ticks) >= 0
  {
    if ticks != [] {
      SlipSumNotNegative(c, ticks[..|ticks| - 1]);
      SlipNotNegative(c, ticks[|ticks| - 1]);
    }
  }

  lemma {:induction false} NowCoversBases(c: Column, bases: seq<Base>, now: seq<int>)
    requires |now| == |bases| && forall k :: 0 <= k < |now| ==> c.At(bases[k]) <= now[k]
    ensures BaseSum(c, bases) <= TotalSum(now)
  {
    if now != [] {
      NowCoversBases(c, bases[..|now| - 1], now[..|now| - 1]);
    }
  }

  /**
   Over any run of ticks for the same new clients: the batches never add up to more than was counted, and what is missing
   is exactly what came since the last tick and what slipped between two loads.
   */
  lemma BatchesTelescope(c: Column, bases: seq<Base>, ticks: seq<seq<Reads>>, now: seq<int>)
    requires SameClients(ticks, |bases|) && |now| == |bases|
    requires forall k :: 0 <= k < |bases| ==> c.At(bases[k]) == 0
    requires forall t :: 0 <= t < |ticks| ==> Growing(c, ticks[t])
    requires forall k :: 0 <= k < |now| ==> c.At(After(bases, ticks)[k]) <= now[k]
    ensures var sinceLast := TotalSum(now) - BaseSum(c, After(bases, ticks));
            && sinceLast >= 0 && SlipSum(c, ticks) >= 0
            && TotalSum(now) - BatchSum(c, bases, ticks) == sinceLast + SlipSum(c, ticks)
  {
    Telescopes(c, bases, ticks);
    SlipSumNotNegative(c, ticks);
    NowCoversBases(c, After(bases, ticks), now);
    ZeroBases(c, bases);
  }

  lemma {:induction false} ZeroBases(c: Column, bases: seq<Base>)
    requires forall k :: 0 <= k < |bases| ==> c.At(bases[k]) == 0
    ensures BaseSum(c, bases) == 0
  {
    if bases != [] {
      ZeroBases(c, bases[..|bases| - 1]);
    }
  }
}
