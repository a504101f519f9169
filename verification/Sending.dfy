/** The books of one test client: every send is counted, and ends up acknowledged, failed or outstanding. */
module Sending {
  import L = Latency

  /** The counters and maps of a test client, with the client's sequence numbers. */
  datatype Books = Books(
    sendCount: int, sendBytes: int, sendSuccess: nat, sendErr: int, lastSeq: nat,
    sendMap: map<nat, int>, sendSuccessMap: map<int, int>)

  const NEW_BOOKS := Books(0, 0, 0, 0, 0, map[], map[])

  function Count(b: Books): Books { b.(sendCount := b.sendCount + 1) }

  function CountError(b: Books): Books { b.(sendErr := b.sendErr + 1) }

  function NextSeq(b: Books): Books { b.(lastSeq := b.lastSeq + 1) }

  function RecordSend(b: Books, seq': nat, bytes: int, now: int): Books {
    b.(sendBytes := b.sendBytes + bytes, sendMap := b.sendMap[seq' := now])
  }

  /** The sendack callback on the books; the shared statistics are module `Latency`'s. */
  function Acknowledge(b: Books, seq': nat, messageId: int, success: bool): Books {
    var matched := if seq' in b.sendMap
                   then b.(sendSuccessMap := b.sendSuccessMap[messageId := b.sendMap[seq']], sendMap := b.sendMap - {seq'})
                   else b;
    if success then matched.(sendSuccess := b.sendSuccess + 1) else matched.(sendErr := b.sendErr + 1)
  }

  /** The statistics of the server the client belongs to. */
  class SharedStats {
    var send: L.Stats
    var recv: L.Stats

    constructor ()
      ensures send == recv == L.EMPTY && send.min == send.max == send.avg == 0
    {
      send, recv := L.EMPTY, L.EMPTY;
    }
  }

  class TestClient {
    const stats: SharedStats
    var sendCount: int
    var sendBytes: int
    var sendSuccess: nat
    var sendErr: int
    var lastSeq: nat
    var sendMap: map<nat, int>
    var sendSuccessMap: map<int, int>
    var recvCount: nat
    var recvBytes: int

    ghost function View(): Books
      reads this
    {
      Books(sendCount, sendBytes, sendSuccess, sendErr, lastSeq, sendMap, sendSuccessMap)
    }

    constructor (stats: SharedStats)
      ensures View() == NEW_BOOKS && this.stats == stats && recvCount == 0 && recvBytes == 0
      ensures sendCount == sendBytes == sendSuccess == sendErr == lastSeq == 0 && sendMap == map[] && sendSuccessMap == map[]
    {
      this.stats := stats;
      sendCount, sendBytes, sendSuccess, sendErr, lastSeq := 0, 0, 0, 0, 0;
      sendMap, sendSuccessMap, recvCount, recvBytes := map[], map[], 0, 0;
    }

    /**
     `send` without interference. `numbered` is whether the message got as far as its sequence number, `accepted`
     whether it was appended.
     */
    method Send(numbered: bool, accepted: bool, bytes: int, now: int) returns (failed: bool)
      requires accepted ==> numbered
      modifies this
      ensures failed == !accepted && recvCount == old(recvCount) && recvBytes == old(recvBytes)
      ensures var counted := Count(old(View()));
              var sent := if numbered then NextSeq(counted) else counted;
              View() == if accepted then RecordSend(sent, sent.lastSeq, bytes, now) else CountError(sent)
      ensures sendCount == old(sendCount) + 1 && sendSuccess == old(sendSuccess) && sendSuccessMap == old(sendSuccessMap)
      ensures sendErr == old(sendErr) + (if accepted then 0 else 1)
      ensures lastSeq == old(lastSeq) + (if numbered then 1 else 0)
      ensures sendBytes == old(sendBytes) + (if accepted then bytes else 0)
      ensures accepted ==> lastSeq in sendMap && sendMap[lastSeq] == now
      ensures forall n :: n in sendMap && !(accepted && n == lastSeq) ==> n in old(sendMap) && sendMap[n] == old(sendMap)[n]
      ensures forall n :: n in old(sendMap) ==> n in sendMap
    {
      sendCount := sendCount + 1;
      if numbered {
        lastSeq := lastSeq + 1;
      }
      if !accepted {
        sendErr := sendErr + 1;
        return true;
      }
      sendBytes := sendBytes + bytes;
      sendMap := sendMap[lastSeq := now];
      return false;
    }

    /** The sendack callback: the books, and a sample for the server if the send was on record. */
    method OnSendack(clientSeq: nat, messageId: int, success: bool, now: int)
      modifies this, stats
      ensures View() == Acknowledge(old(View()), clientSeq, messageId, success)
      ensures recvCount == old(recvCount) && recvBytes == old(recvBytes)
      ensures stats.recv == old(stats.recv)
      ensures stats.send == if clientSeq in old(sendMap)
                            then L.Record(old(stats.send), old(sendSuccess), now - old(sendMap)[clientSeq])
                            else old(stats.send)
      ensures sendCount == old(sendCount) && sendBytes == old(sendBytes) && lastSeq == old(lastSeq)
      ensures sendSuccess == old(sendSuccess) + (if success then 1 else 0)
      ensures sendErr == old(sendErr) + (if success then 0 else 1)
      ensures clientSeq !in sendMap && sendMap.Keys == old(sendMap.Keys) - {clientSeq}
      ensures forall n :: n in sendMap ==> sendMap[n] == old(sendMap)[n]
      ensures clientSeq !in old(sendMap) ==> sendSuccessMap == old(sendSuccessMap) && stats.send == old(stats.send)
      ensures clientSeq in old(sendMap) ==>
                && sendSuccessMap.Keys == old(sendSuccessMap.Keys) + {messageId}
                && sendSuccessMap[messageId] == old(sendMap)[clientSeq]
                && (forall m :: m in old(sendSuccessMap) && m != messageId ==> sendSuccessMap[m] == old(sendSuccessMap)[m])
                && L.Sampled(old(stats.send), stats.send, old(sendSuccess), now - old(sendMap)[clientSeq])
    {
      if clientSeq in sendMap {
        L.RecordSamples(stats.send, sendSuccess, now - sendMap[clientSeq]);
      }
      if clientSeq in sendMap {
        var start := sendMap[clientSeq];
        sendSuccessMap := sendSuccessMap[messageId := start];
        var latency := now - start;
        sendMap := sendMap - {clientSeq};
        var s := stats.send;
        if s.min == 0 || s.min > latency {
          s := s.(min := latency);
        }
        if s.max < latency {
          s := s.(max := latency);
        }
        s := s.(avg := L.Quotient(s.avg * sendSuccess + latency, sendSuccess + 1));
        stats.send := s;
      }
      if success {
        sendSuccess := sendSuccess + 1;
      } else {
        sendErr := sendErr + 1;
      }
    }

    /** The receive callback: `from` is the sender's client, if it is one of ours. The count moves before the sample. */
    method OnRecv(messageId: int, size: int, from: TestClient?, now: int)
      modifies this`recvCount, this`recvBytes, stats
      ensures recvCount == old(recvCount) + 1 && recvBytes == old(recvBytes) + size
      ensures stats.send == old(stats.send)
      ensures stats.recv == if from != null && messageId in from.sendSuccessMap
                            then L.Record(old(stats.recv), old(recvCount) + 1, now - from.sendSuccessMap[messageId])
                            else old(stats.recv)
      ensures from == null || messageId !in from.sendSuccessMap ==> stats.recv == old(stats.recv)
      ensures from != null && messageId in from.sendSuccessMap ==>
                L.Sampled(old(stats.recv), stats.recv, old(recvCount) + 1, now - from.sendSuccessMap[messageId])
    {
      if from != null && messageId in from.sendSuccessMap {
        L.RecordSamples(stats.recv, recvCount + 1, now - from.sendSuccessMap[messageId]);
      }
      recvCount := recvCount + 1;
      recvBytes := recvBytes + size;
      if from != null && messageId in from.sendSuccessMap {
        var latency := now - from.sendSuccessMap[messageId];
        var s := stats.recv;
        if s.min == 0 || s.min > latency {
          s := s.(min := latency);
        }
        if s.max < latency {
          s := s.(max := latency);
        }
        s := s.(avg := L.Quotient(s.avg * recvCount + latency, recvCount + 1));
        stats.recv := s;
      }
    }
  }

  // ---- all interleavings ----

  /**
   The books with the sends in progress: `counted` ones have only been counted, `numbered` ones have a number,
   `rejected` ones were refused and not yet counted as errors, `unrecorded` ones are accepted and not yet in
   `sendMap`. `unacked` frames were accepted and have no ack yet. `recorded` remembers the time noted for each frame,
   `late` the frames whose ack came before that, `owner` which frame a message id was last noted for.
   */
  datatype World = World(
    books: Books, counted: nat, numbered: set<nat>, rejected: nat, unrecorded: set<nat>, unacked: set<nat>,
    recorded: map<nat, int>, late: set<nat>, owner: map<int, nat>)

  const NEW_WORLD := World(NEW_BOOKS, 0, {}, 0, {}, {}, map[], {}, map[])

  datatype Event =
    | Starts
    | RefusedUnnumbered
    | Numbers
    | Accepts(n: nat)
    | Refuses(n: nat)
    | ErrorCounted
    | Records(n: nat, bytes: int, now: int)
    | AckArrives(n: nat, messageId: int, success: bool)
    | Cleaned(messageId: int)

  /** Accepted frames are acked at most once, others never. */
  predicate CanHappen(w: World, e: Event) {
    match e
    case Starts => true
    case RefusedUnnumbered => w.counted > 0
    case Numbers => w.counted > 0
    case Accepts(n) => n in w.numbered
    case Refuses(n) => n in w.numbered
    case ErrorCounted => w.rejected > 0
    case Records(n, _, _) => n in w.unrecorded
    case AckArrives(n, _, _) => n in w.unacked
    case Cleaned(_) => true
  }

  function Happen(w: World, e: Event): World
    requires CanHappen(w, e)
  {
    var b := w.books;
    match e
    case Starts => w.(books := Count(b), counted := w.counted + 1)
    case RefusedUnnumbered => w.(counted := w.counted - 1, rejected := w.rejected + 1)
    case Numbers => w.(books := NextSeq(b), counted := w.counted - 1, numbered := w.numbered + {b.lastSeq + 1})
    case Accepts(n) =>
      w.(numbered := w.numbered - {n}, unrecorded := w.unrecorded + {n}, unacked := w.unacked + {n})
    case Refuses(n) => w.(numbered := w.numbered - {n}, rejected := w.rejected + 1)
    case ErrorCounted => w.(books := CountError(b), rejected := w.rejected - 1)
    case Records(n, bytes, now) =>
      w.(books := RecordSend(b, n, bytes, now), unrecorded := w.unrecorded - {n}, recorded := w.recorded[n := now],
         late := if n in w.unacked then w.late else w.late + {n})
    case AckArrives(n, messageId, success) =>
      w.(books := Acknowledge(b, n, messageId, success), unacked := w.unacked - {n},
         owner := if n in b.sendMap then w.owner[messageId := n] else w.owner)
    case Cleaned(messageId) => w.(books := b.(sendSuccessMap := b.sendSuccessMap - {messageId}))
  }

  /** Nothing is counted twice or forgotten. */
  predicate Balanced(w: World) {
    w.books.sendCount ==
      w.books.sendSuccess + w.books.sendErr + (w.counted + |w.numbered| + w.rejected) + |w.unacked|
  }

  /** Numbers are fresh, and every noted time is the one recorded for its own frame. */
  ghost predicate Numbered(w: World) {
    && (forall n :: n in w.numbered || n in w.unrecorded || n in w.unacked || n in w.recorded ==> n <= w.books.lastSeq)
    && w.numbered !! w.unrecorded && w.numbered !! w.unacked && w.numbered !! w.recorded.Keys
    && w.unrecorded !! w.recorded.Keys
    && w.late <= w.recorded.Keys && w.late !! w.unacked
    && (forall n :: n in w.books.sendMap <==> n in w.recorded && (n in w.unacked || n in w.late))
    && (forall n :: n in w.books.sendMap ==> w.books.sendMap[n] == w.recorded[n])
    && (forall m :: m in w.books.sendSuccessMap ==>
          m in w.owner && w.owner[m] in w.recorded && w.books.sendSuccessMap[m] == w.recorded[w.owner[m]])
  }

  lemma BalanceKept(w: World, e: Event)
    requires Balanced(w) && Numbered(w) && CanHappen(w, e)
    ensures Balanced(Happen(w, e))
  {
  }

  lemma NumbersKept(w: World, e: Event)
    requires Numbered(w) && CanHappen(w, e)
    ensures Numbered(Happen(w, e))
  {
  }

  predicate CanRun(w: World, es: seq<Event>)
    decreases |es|
  {
    es == [] || (CanHappen(w, es[0]) && CanRun(Happen(w, es[0]), es[1..]))
  }

  function Run(w: World, es: seq<Event>): World
    requires CanRun(w, es)
    decreases |es|
  {
    if es == [] then w else Run(Happen(w, es[0]), es[1..])
  }

  lemma {:induction false} RunKept(w: World, es: seq<Event>)
    requires Balanced(w) && Numbered(w) && CanRun(w, es)
    ensures Balanced(Run(w, es)) && Numbered(Run(w, es))
    decreases |es|
  {
    hide Balanced, Numbered;
    if es != [] {
      BalanceKept(w, es[0]);
      NumbersKept(w, es[0]);
      RunKept(Happen(w, es[0]), es[1..]);
    }
  }

  /**
   Over every interleaving of sends and acks: sends are conserved, a new number was never used before, and each time
   in `sendSuccessMap` is the one recorded for the frame its message id belongs to.
   */
  lemma SendsConserved(es: seq<Event>)
    requires CanRun(NEW_WORLD, es)
    ensures var w := Run(NEW_WORLD, es);
            var inProgress := w.counted + |w.numbered| + w.rejected;
            && w.books.sendCount == w.books.sendSuccess + w.books.sendErr + inProgress + |w.unacked|
            && w.books.lastSeq + 1 !in w.numbered + w.unrecorded + w.unacked + w.recorded.Keys
            && (forall n :: n in w.recorded && n in w.unacked ==> n in w.books.sendMap)
            && (forall n :: n in w.books.sendMap ==>
                  n in w.recorded && (n in w.unacked || n in w.late) && w.books.sendMap[n] == w.recorded[n])
            && (forall m :: m in w.books.sendSuccessMap ==>
                  m in w.owner && w.owner[m] in w.recorded && w.books.sendSuccessMap[m] == w.recorded[w.owner[m]])
  {
    RunKept(NEW_WORLD, es);
  }

  lemma OneRecorded(w: World, e: Event, n: nat)
    requires Numbered(w) && CanHappen(w, e)
    ensures var t := Happen(w, e);
            && (n in w.recorded ==> n in t.recorded && t.recorded[n] == w.recorded[n])
            && (n !in w.recorded ==> (n in t.recorded <==> e.Records? && e.n == n) && (n in t.recorded ==> t.recorded[n] == e.now))
  {
  }

  lemma {:induction false} RecordedStays(w: World, es: seq<Event>, n: nat)
    requires Numbered(w) && CanRun(w, es) && n in w.recorded
    ensures n in Run(w, es).recorded && Run(w, es).recorded[n] == w.recorded[n]
    decreases |es|
  {
    if es != [] {
      NumbersKept(w, es[0]);
      OneRecorded(w, es[0], n);
      hide Happen, CanHappen, Numbered;
      RecordedStays(Happen(w, es[0]), es[1..], n);
    }
  }

  /** The times remembered are those at which the frames were recorded. */
  lemma {:induction false} RecordedWhen(w: World, es: seq<Event>, n: nat)
    requires Numbered(w) && CanRun(w, es) && n !in w.recorded
    ensures n in Run(w, es).recorded ==>
              exists i :: 0 <= i < |es| && es[i].Records? && es[i].n == n && es[i].now == Run(w, es).recorded[n]
    ensures n !in Run(w, es).recorded ==> forall i :: 0 <= i < |es| && es[i].Records? ==> es[i].n != n
    decreases |es|
  {
    if es != [] {
      var t, rest := Happen(w, es[0]), es[1..];
      NumbersKept(w, es[0]);
      OneRecorded(w, es[0], n);
      hide Happen, CanHappen, Numbered;
      if n in t.recorded {
        RecordedStays(t, rest, n);
        assert es[0].Records? && es[0].n == n;
      } else {
        RecordedWhen(t, rest, n);
        if n in Run(w, es).recorded {
          var i :| 0 <= i < |rest| && rest[i].Records? && rest[i].n == n && rest[i].now == Run(t, rest).recorded[n];
          assert es[i + 1] == rest[i];
        } else {
          assert forall i :: 0 < i < |es| ==> es[i] == rest[i - 1];
        }
      }
    }
  }

  /**
   An ack finds the send of its frame: over every interleaving, if the frame was recorded before, its time moves from
   `sendMap` to `sendSuccessMap`; otherwise both maps stay as they are.
   */
  lemma AckFindsItsSend(es: seq<Event>, n: nat, messageId: int, success: bool)
    requires CanRun(NEW_WORLD, es) && CanHappen(Run(NEW_WORLD, es), AckArrives(n, messageId, success))
    ensures var w := Run(NEW_WORLD, es);
            var b, c := w.books, Happen(w, AckArrives(n, messageId, success)).books;
            && n !in c.sendMap
            && (n in w.recorded ==>
                  && b.sendMap.Keys == c.sendMap.Keys + {n}
                  && messageId in c.sendSuccessMap && c.sendSuccessMap[messageId] == w.recorded[n])
            && (n !in w.recorded ==> c.sendMap == b.sendMap && c.sendSuccessMap == b.sendSuccessMap)
  {
    RunKept(NEW_WORLD, es);
    hide Run;
  }

  /** Cleaning forgets the time of one message and nothing else. */
  lemma CleanedForgets(w: World, messageId: int)
    ensures CanHappen(w, Cleaned(messageId))
    ensures var b, c := w.books, Happen(w, Cleaned(messageId)).books;
            && messageId !in c.sendSuccessMap
            && c == b.(sendSuccessMap := c.sendSuccessMap)
            && forall m :: m != messageId ==> (m in c.sendSuccessMap <==> m in b.sendSuccessMap) &&
                                              (m in b.sendSuccessMap ==> c.sendSuccessMap[m] == b.sendSuccessMap[m])
  {
  }

  /** What an event adds to each counter. */
  datatype Deltas = Deltas(starts: nat, successes: nat, errors: nat, numbers: nat, bytes: int)

  function DeltasOf(e: Event): Deltas {
    match e
    case Starts => Deltas(1, 0, 0, 0, 0)
    case Numbers => Deltas(0, 0, 0, 1, 0)
    case ErrorCounted => Deltas(0, 0, 1, 0, 0)
    case Records(_, bytes, _) => Deltas(0, 0, 0, 0, bytes)
    case AckArrives(_, _, true) => Deltas(0, 1, 0, 0, 0)
    case AckArrives(_, _, false) => Deltas(0, 0, 1, 0, 0)
    case _ => Deltas(0, 0, 0, 0, 0)
  }

  function Total(es: seq<Event>): Deltas {
    if es == [] then Deltas(0, 0, 0, 0, 0)
    else
      var d, t := DeltasOf(es[0]), Total(es[1..]);
      Deltas(d.starts + t.starts, d.successes + t.successes, d.errors + t.errors, d.numbers + t.numbers, d.bytes + t.bytes)
  }

  /** `c` is what the counters of `b` become when `t` is added. */
  predicate Grown(b: Books, c: Books, t: Deltas) {
    && c.sendCount == b.sendCount + t.starts
    && c.sendSuccess == b.sendSuccess + t.successes
    && c.sendErr == b.sendErr + t.errors
    && c.lastSeq == b.lastSeq + t.numbers
    && c.sendBytes == b.sendBytes + t.bytes
  }

  lemma CounterStep(w: World, e: Event)
    requires CanHappen(w, e)
    ensures Grown(w.books, Happen(w, e).books, DeltasOf(e))
  {
  }

  lemma {:induction false} CountersExact(w: World, es: seq<Event>)
    requires CanRun(w, es)
    ensures Grown(w.books, Run(w, es).books, Total(es))
    decreases |es|
  {
    if es != [] {
      CounterStep(w, es[0]);
      hide Happen, CanHappen, DeltasOf;
      CountersExact(Happen(w, es[0]), es[1..]);
    }
  }

  /**
   The same in terms of what happened: of the sends begun, each has come back with an ack, was refused and counted
   as an error, or is still in progress or without its ack.
   */
  lemma EverySendAccounted(es: seq<Event>)
    requires CanRun(NEW_WORLD, es)
    ensures var w, t := Run(NEW_WORLD, es), Total(es);
            && t.starts == t.successes + t.errors + (w.counted + |w.numbered| + w.rejected) + |w.unacked|
            && w.books.sendSuccess == t.successes && w.books.sendErr == t.errors && w.books.sendBytes == t.bytes
  {
    CountersExact(NEW_WORLD, es);
    SendsConserved(es);
    hide Run, Total;
  }
}
