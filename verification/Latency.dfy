/** Latency statistics shared by the test clients: minimum, maximum and an integer running average. */
module Latency {
  import opened Prelude

  /** Go's integer division, which truncates toward zero. */
  function Quotient(a: int, b: int): int
    requires b > 0
  {
    if a >= 0 then a / b else -((-a) / b)
  }

  /** `min` is zero while nothing was recorded. */
  datatype Stats = Stats(min: int, max: int, avg: int)

  const EMPTY := Stats(0, 0, 0)

  /** One sample, averaged in with the weight of `count` earlier ones. */
  function Record(s: Stats, count: nat, latency: int): Stats {
    Stats(if s.min == 0 || s.min > latency then latency else s.min,
          if s.max < latency then latency else s.max,
          Quotient(s.avg * count + latency, count + 1))
  }

  /** The quotient rounds toward zero. */
  lemma QuotientTruncates(a: int, b: int)
    requires b > 0
    ensures var q := Quotient(a, b);
            if a >= 0 then 0 <= a - q * b < b else -b < a - q * b <= 0
  {
  }

  /**
   What a sample does to the statistics: the minimum, unless there was one that is no larger; the maximum; and the
   weighted mean of the average and the sample, rounded toward zero.
   */
  predicate Sampled(before: Stats, after: Stats, weight: nat, latency: int) {
    var total, part := before.avg * weight + latency, after.avg * (weight + 1);
    && after.min == (if before.min != 0 && before.min <= latency then before.min else latency)
    && after.max == (if before.max >= latency then before.max else latency)
    && if total >= 0 then 0 <= total - part < weight + 1 else -(weight + 1) < total - part <= 0
  }

  lemma RecordSamples(s: Stats, weight: nat, latency: int)
    ensures Sampled(s, Record(s, weight, latency), weight, latency)
  {
    QuotientTruncates(s.avg * weight + latency, weight + 1);
    hide Quotient;
  }

  // ---- the error of the running average ----

  function Sum(xs: seq<int>): int {
    if xs == [] then 0 else Sum(xs[..|xs| - 1]) + xs[|xs| - 1]
  }

  /** The statistics of one client all of whose acks were matched and successful. */
  function Recorded(latencies: seq<int>): Stats {
    if latencies == [] then EMPTY
    else Record(Recorded(latencies[..|latencies| - 1]), |latencies| - 1, latencies[|latencies| - 1])
  }

  lemma QuotientLaw(a: nat, b: nat)
    requires b > 0
    ensures Quotient(a, b) >= 0 && 0 <= a - b * Quotient(a, b) < b
  {
  }

  lemma OneMore(xs: seq<int>, x: int)
    ensures Recorded(xs + [x]) == Record(Recorded(xs), |xs|, x) && Sum(xs + [x]) == Sum(xs) + x
  {
    assert (xs + [x])[..|xs|] == xs;
  }

  /** What the average of the first samples times their number falls short of their sum. */
  function Shortfall(sum: int, n: nat, avg: int): int { sum - n * avg }

  /** One sample: the shortfall grows by the remainder of the division. */
  lemma ShortfallStep(sum: int, n: nat, avg: nat, x: nat)
    ensures var avg' := Quotient(avg * n + x, n + 1);
            && avg' >= 0
            && Shortfall(sum, n, avg) <= Shortfall(sum + x, n + 1, avg') <= Shortfall(sum, n, avg) + n
  {
    var total := avg * n + x;
    QuotientLaw(total, n + 1);
    var avg' := Quotient(total, n + 1);
    hide Quotient;
    assert Shortfall(sum + x, n + 1, avg') == Shortfall(sum, n, avg) + (total - (n + 1) * avg');
  }

  lemma {:induction false} ShortfallBound(xs: seq<int>)
    requires forall k :: 0 <= k < |xs| ==> xs[k] >= 0
    ensures Recorded(xs).avg >= 0 && 0 <= Shortfall(Sum(xs), |xs|, Recorded(xs).avg) <= Triangle(|xs|)
  {
    if xs == [] {
      TriangleStep(0);
    } else {
      var n := |xs| - 1;
      var prev, x := xs[..n], xs[n];
      ShortfallBound(prev);
      OneMore(prev, x);
      assert xs == prev + [x];
      ShortfallStep(Sum(prev), n, Recorded(prev).avg, x);
      TriangleStep(n);
      hide Recorded, Sum, Triangle, Shortfall, Quotient;
    }
  }

  /** The average rounds down at every sample; after n samples it has lost at most n(n-1)/2 of the sum. */
  lemma AverageError(latencies: seq<int>)
    requires forall k :: 0 <= k < |latencies| ==> latencies[k] >= 0
    ensures var n, avg := |latencies|, Recorded(latencies).avg;
            avg >= 0 && 0 <= Sum(latencies) - n * avg <= Triangle(n)
  {
    ShortfallBound(latencies);
    hide Recorded, Sum, Triangle;
  }

  /** 0, 1, 2, ...: each sample is one too small to lift the average. */
  function Creeping(n: nat): seq<int> { seq(n, i requires 0 <= i < n => i) }

  lemma TooSmall(s: Stats, n: nat)
    requires s.avg == 0
    ensures Record(s, n, n).avg == 0
  {
    QuotientBetween(n, n + 1, 0, 0);
  }

  /** The bound is attained for every number of samples: the average can stay zero while latencies grow. */
  lemma {:induction false} AverageErrorTight(n: nat)
    ensures Recorded(Creeping(n)).avg == 0 && Sum(Creeping(n)) == Triangle(n)
  {
    if n > 0 {
      AverageErrorTight(n - 1);
      assert Creeping(n) == Creeping(n - 1) + [n - 1];
      OneMore(Creeping(n - 1), n - 1);
      TooSmall(Recorded(Creeping(n - 1)), n - 1);
      TriangleStep(n - 1);
    }
  }

  // ---- the range of the average ----

  ghost predicate InRange(s: Stats) { 0 < s.min <= s.avg <= s.max }

  /** A weighted mean of a value in range and a new sample is in the extended range. */
  lemma RecordInRange(s: Stats, count: nat, latency: int)
    requires InRange(s) && latency > 0
    ensures InRange(Record(s, count, latency))
  {
    var t := Record(s, count, latency);
    var total := s.avg * count + latency;
    assert t.avg == Quotient(total, count + 1) && t.min <= s.avg <= t.max && 0 < t.min <= latency <= t.max;
    hide Quotient, Record;
    MulOrder(t.min, s.avg, count);
    MulOrder(s.avg, t.max, count);
    MulOrder(0, t.min, count);
    assert t.min * (count + 1) == t.min * count + t.min;
    assert (t.max + 1) * (count + 1) == t.max * count + t.max + count + 1;
    QuotientBetween(total, count + 1, t.min, t.max);
  }

  lemma MulOrder(a: int, b: int, c: nat)
    requires a <= b
    ensures a * c <= b * c
  {
  }

  lemma QuotientBetween(total: nat, n: nat, low: int, high: int)
    requires n > 0 && low * n <= total < (high + 1) * n
    ensures low <= Quotient(total, n) <= high
  {
    var q := Quotient(total, n);
    QuotientLaw(total, n);
    if q < low { MulOrder(q + 1, low, n); }
    if high < q { MulOrder(high + 1, q, n); }
  }

  /** The very first sample is in range exactly when it is not averaged with samples that do not exist. */
  lemma FirstSample(count: nat, latency: int)
    requires latency > 0
    ensures InRange(Record(EMPTY, count, latency)) <==> count == 0
  {
    QuotientLaw(latency, count + 1);
    var q := Quotient(latency, count + 1);
    MulOrder(1, latency, count);
  }

  /** A SENDACK: which client got it, whether its frame is in `sendMap`, and what it says. */
  datatype Ack = Ack(client: nat, matched: bool, success: bool, latency: int)

  /** Shared statistics and the `sendSuccess` counter of each client. */
  datatype Ledger = Ledger(stats: Stats, successes: map<nat, nat>)

  function Successes(l: Ledger, client: nat): nat {
    if client in l.successes then l.successes[client] else 0
  }

  /** The sendack callback as one step: the sample is weighted by the client's own count, then the count moves. */
  function Acked(l: Ledger, a: Ack): Ledger {
    Ledger(if a.matched then Record(l.stats, Successes(l, a.client), a.latency) else l.stats,
           if a.success then l.successes[a.client := Successes(l, a.client) + 1] else l.successes)
  }

  function AfterAcks(acks: seq<Ack>): Ledger {
    if acks == [] then Ledger(EMPTY, map[]) else Acked(AfterAcks(acks[..|acks| - 1]), acks[|acks| - 1])
  }

  /** The count of a client is the number of its successful acks. */
  lemma {:induction false} SuccessesCount(acks: seq<Ack>, client: nat)
    ensures Successes(AfterAcks(acks), client) == |set i | 0 <= i < |acks| && acks[i].client == client && acks[i].success|
  {
    if acks != [] {
      var n := |acks| - 1;
      var prev := acks[..n];
      SuccessesCount(prev, client);
      var before := set i | 0 <= i < |prev| && prev[i].client == client && prev[i].success;
      var now := set i | 0 <= i < |acks| && acks[i].client == client && acks[i].success;
      assert forall i :: 0 <= i < n ==> prev[i] == acks[i];
      if acks[n].client == client && acks[n].success {
        assert now == before + {n};
      } else {
        assert now == before;
      }
    }
  }

  /** A matched ack gives a sample weighted with the successful acks of its client before it; others give none. */
  lemma AckSample(acks: seq<Ack>, a: Ack)
    ensures var before, after := AfterAcks(acks).stats, AfterAcks(acks + [a]).stats;
            if a.matched then
              Sampled(before, after, |set i | 0 <= i < |acks| && acks[i].client == a.client && acks[i].success|, a.latency)
            else after == before
  {
    SuccessesCount(acks, a.client);
    assert (acks + [a])[..|acks|] == acks;
    RecordSamples(AfterAcks(acks).stats, Successes(AfterAcks(acks), a.client), a.latency);
    hide Record, Sampled;
  }

  predicate AnyMatched(acks: seq<Ack>) { exists i :: 0 <= i < |acks| && acks[i].matched }

  predicate Positive(acks: seq<Ack>) { forall i :: 0 <= i < |acks| && acks[i].matched ==> acks[i].latency > 0 }

  /** The first matched ack reaches a client without earlier successes. */
  ghost predicate FairStart(acks: seq<Ack>) {
    forall i :: 0 <= i < |acks| && acks[i].matched && !AnyMatched(acks[..i]) ==>
      Successes(AfterAcks(acks[..i]), acks[i].client) == 0
  }

  /**
   The send average of any number of clients, over any order of acks: from the first sample on it lies between the
   smallest and the largest latency, although each client weighs it by its own count.
   */
  lemma {:induction false} AverageInRange(acks: seq<Ack>)
    requires Positive(acks) && FairStart(acks)
    ensures if AnyMatched(acks) then InRange(AfterAcks(acks).stats) else AfterAcks(acks).stats == EMPTY
  {
    if acks != [] {
      var n := |acks| - 1;
      var prev, a := acks[..n], acks[n];
      assert forall i :: 0 <= i < n ==> prev[..i] == acks[..i] && prev[i] == acks[i];
      AverageInRange(prev);
      assert AnyMatched(acks) <==> AnyMatched(prev) || a.matched by {
        if AnyMatched(prev) {
          var i :| 0 <= i < |prev| && prev[i].matched;
          assert acks[i].matched;
        }
      }
      if a.matched {
        var l := AfterAcks(prev);
        if AnyMatched(prev) {
          RecordInRange(l.stats, Successes(l, a.client), a.latency);
        } else {
          FirstSample(Successes(l, a.client), a.latency);
        }
      }
    }
  }

  lemma HasMatch(acks: seq<Ack>)
    requires acks != [] && acks[0].matched
    ensures AnyMatched(acks)
  {
  }

  /** `min` and `max` are the smallest and the largest matched latency. */
  ghost predicate Extremes(s: Stats, acks: seq<Ack>) {
    && (forall i :: 0 <= i < |acks| && acks[i].matched ==> s.min <= acks[i].latency <= s.max)
    && (exists i :: 0 <= i < |acks| && acks[i].matched && acks[i].latency == s.min)
    && (exists i :: 0 <= i < |acks| && acks[i].matched && acks[i].latency == s.max)
  }

  lemma {:induction false} ExtremesExact(acks: seq<Ack>)
    requires Positive(acks)
    ensures if AnyMatched(acks) then Extremes(AfterAcks(acks).stats, acks) && AfterAcks(acks).stats.min > 0
            else AfterAcks(acks).stats == EMPTY
  {
    if acks != [] {
      var n := |acks| - 1;
      var prev, a := acks[..n], acks[n];
      assert forall i :: 0 <= i < n ==> prev[i] == acks[i];
      ExtremesExact(prev);
      var before, after := AfterAcks(prev).stats, AfterAcks(acks).stats;
      if AnyMatched(prev) {
        var low :| 0 <= low < |prev| && prev[low].matched && prev[low].latency == before.min;
        var high :| 0 <= high < |prev| && prev[high].matched && prev[high].latency == before.max;
        assert acks[low].matched;
        assert acks[if after.min == before.min then low else n].latency == after.min;
        assert acks[if after.max == before.max then high else n].latency == after.max;
      } else {
        assert forall i :: 0 <= i < n ==> !acks[i].matched;
        if a.matched {
          assert acks[n].latency == after.min == after.max;
        }
      }
    }
  }

  /** When every ack finds its send recorded, the start is fair. */
  lemma {:induction false} AllMatchedIsFair(acks: seq<Ack>)
    requires forall i :: 0 <= i < |acks| ==> acks[i].matched
    ensures FairStart(acks)
  {
    forall i | 0 <= i < |acks| && acks[i].matched && !AnyMatched(acks[..i])
      ensures Successes(AfterAcks(acks[..i]), acks[i].client) == 0
    {
      assert acks[..i] == [] by {
        if i > 0 {
          HasMatch(acks[..i]);
          assert false;
        }
      }
    }
  }

  /**
   Without a fair start the range is lost at the first sample: a client whose earlier successes came back before
   their sends were recorded weighs its first sample with them.
   */
  lemma UnfairStartFails(acks: seq<Ack>, a: Ack)
    requires !AnyMatched(acks) && a.matched && a.latency > 0
    ensures InRange(AfterAcks(acks + [a]).stats) <==> Successes(AfterAcks(acks), a.client) == 0
  {
    NoSamples(acks);
    assert (acks + [a])[..|acks|] == acks;
    FirstSample(Successes(AfterAcks(acks), a.client), a.latency);
  }

  /** The first matched ack of a history is the one FairStart speaks of. */
  lemma FairPrefix(acks: seq<Ack>, k: nat)
    requires k <= |acks| && FairStart(acks)
    ensures FairStart(acks[..k])
  {
    forall i | 0 <= i < k && acks[..k][i].matched && !AnyMatched(acks[..k][..i])
      ensures Successes(AfterAcks(acks[..k][..i]), acks[..k][i].client) == 0
    {
      assert acks[..k][..i] == acks[..i];
    }
  }

  /**
   Exactly the fair starts keep the send average in range: it lies between the extremes after every ack from the first
   sample on, if and only if the first matched ack reached a client without earlier successes.
   */
  lemma AverageInRangeExactly(acks: seq<Ack>)
    requires Positive(acks)
    ensures (forall k: nat :: k <= |acks| && AnyMatched(acks[..k]) ==> InRange(AfterAcks(acks[..k]).stats)) <==> FairStart(acks)
  {
    if FairStart(acks) {
      forall k: nat | k <= |acks| && AnyMatched(acks[..k]) ensures InRange(AfterAcks(acks[..k]).stats) {
        FairPrefix(acks, k);
        AverageInRange(acks[..k]);
      }
    } else {
      var i :| 0 <= i < |acks| && acks[i].matched && !AnyMatched(acks[..i])
            && Successes(AfterAcks(acks[..i]), acks[i].client) != 0;
      assert acks[..i + 1] == acks[..i] + [acks[i]];
      UnfairStartFails(acks[..i], acks[i]);
      assert acks[..i + 1][i].matched;
    }
  }

  lemma {:induction false} NoSamples(acks: seq<Ack>)
    requires !AnyMatched(acks)
    ensures AfterAcks(acks).stats == EMPTY
  {
    if acks != [] {
      var prev := acks[..|acks| - 1];
      NoSamples(prev);
      assert !acks[|acks| - 1].matched;
    }
  }

  /** One client, all acks matched and successful: the ledger is the plain running average above. */
  lemma {:induction false} OneClient(acks: seq<Ack>, client: nat, latencies: seq<int>)
    requires |latencies| == |acks|
    requires forall i :: 0 <= i < |acks| ==> acks[i] == Ack(client, true, true, latencies[i])
    ensures AfterAcks(acks).stats == Recorded(latencies)
    ensures Successes(AfterAcks(acks), client) == |acks|
  {
    if acks != [] {
      OneClient(acks[..|acks| - 1], client, latencies[..|acks| - 1]);
    }
  }

  // ---- the receive average ----

  /** The receive callback weighs with a count that already includes the message, so never with zero. */
  lemma RecvFirstSampleIsLow(count: nat, latency: int)
    requires count >= 1 && latency > 0
    ensures Record(EMPTY, count, latency).avg < Record(EMPTY, count, latency).min
  {
    FirstSample(count, latency);
    QuotientBetween(latency, count + 1, 0, latency);
  }

  /** A received message: by which client, whether its sender recorded it, and its latency. */
  datatype Receipt = Receipt(client: nat, found: bool, latency: int)

  /** The receive callback as one step: the client's count moves first, and the sample is weighted with it. */
  function Received(l: Ledger, r: Receipt): Ledger {
    var count := Successes(l, r.client) + 1;
    Ledger(if r.found then Record(l.stats, count, r.latency) else l.stats, l.successes[r.client := count])
  }

  function AfterReceipts(rs: seq<Receipt>): Ledger {
    if rs == [] then Ledger(EMPTY, map[]) else Received(AfterReceipts(rs[..|rs| - 1]), rs[|rs| - 1])
  }

  /** The count of a client is the number of messages it received. */
  lemma {:induction false} ReceiptsCount(rs: seq<Receipt>, client: nat)
    ensures Successes(AfterReceipts(rs), client) == |set i | 0 <= i < |rs| && rs[i].client == client|
  {
    if rs != [] {
      var n := |rs| - 1;
      var prev := rs[..n];
      ReceiptsCount(prev, client);
      var before := set i | 0 <= i < |prev| && prev[i].client == client;
      var now := set i | 0 <= i < |rs| && rs[i].client == client;
      assert forall i :: 0 <= i < n ==> prev[i] == rs[i];
      if rs[n].client == client {
        assert now == before + {n};
      } else {
        assert now == before;
      }
    }
  }

  /** A sample of a message is weighted with the messages its client has received, itself included; others give none. */
  lemma ReceiptSample(rs: seq<Receipt>, r: Receipt)
    ensures var before, after := AfterReceipts(rs).stats, AfterReceipts(rs + [r]).stats;
            if r.found then Sampled(before, after, |set i | 0 <= i < |rs| && rs[i].client == r.client| + 1, r.latency)
            else after == before
  {
    ReceiptsCount(rs, r.client);
    assert (rs + [r])[..|rs|] == rs;
    RecordSamples(AfterReceipts(rs).stats, Successes(AfterReceipts(rs), r.client) + 1, r.latency);
    hide Record, Sampled;
  }

  predicate AnyFound(rs: seq<Receipt>) { exists i :: 0 <= i < |rs| && rs[i].found }

  /** An average below the largest latency stays below it when the new sample weighs no more than the old ones. */
  lemma StaysBelow(s: Stats, count: nat, latency: int)
    requires count >= 1 && latency > 0 && 0 <= s.avg && (s.avg < s.max || s == EMPTY)
    ensures var t := Record(s, count, latency); 0 <= t.avg < t.max
  {
    var t := Record(s, count, latency);
    hide Quotient;
    assert s.avg <= t.max - 1 && 1 <= t.max && latency <= t.max;
    MulOrder(0, s.avg, count);
    MulOrder(s.avg, t.max - 1, count);
    var total := s.avg * count + latency;
    assert (t.max - 1) * count + t.max <= t.max * (count + 1) - 1;
    QuotientBetween(total, count + 1, 0, t.max - 1);
  }

  /**
   The receive average over any order of messages and any number of clients: from the first sample on it is below the
   largest latency, which is the latency of one of the samples.
   */
  lemma {:induction false} RecvAverageBelowMax(rs: seq<Receipt>)
    requires forall i :: 0 <= i < |rs| && rs[i].found ==> rs[i].latency > 0
    ensures var s := AfterReceipts(rs).stats;
            if AnyFound(rs) then
              && 0 <= s.avg < s.max
              && (exists i :: 0 <= i < |rs| && rs[i].found && rs[i].latency == s.max)
              && (forall i :: 0 <= i < |rs| && rs[i].found ==> rs[i].latency <= s.max)
            else s == EMPTY
  {
    if rs != [] {
      var n := |rs| - 1;
      var prev, r := rs[..n], rs[n];
      assert forall i :: 0 <= i < n ==> prev[i] == rs[i];
      RecvAverageBelowMax(prev);
      var before, after := AfterReceipts(prev), AfterReceipts(rs).stats;
      if r.found {
        StaysBelow(before.stats, Successes(before, r.client) + 1, r.latency);
        hide Record;
      }
      if AnyFound(prev) {
        var top :| 0 <= top < |prev| && prev[top].found && prev[top].latency == before.stats.max;
        assert rs[top].found;
        assert rs[if after.max == before.stats.max then top else n].latency == after.max;
      } else {
        assert forall i :: 0 <= i < n ==> !rs[i].found;
        assert r.found ==> rs[n].latency == after.max;
      }
    }
  }

  /** So it never reaches a constant latency. */
  lemma RecvAverageMissesConstant(rs: seq<Receipt>, latency: int)
    requires latency > 0 && AnyFound(rs) && forall i :: 0 <= i < |rs| && rs[i].found ==> rs[i].latency == latency
    ensures AfterReceipts(rs).stats.avg < latency
  {
    RecvAverageBelowMax(rs);
  }
}
