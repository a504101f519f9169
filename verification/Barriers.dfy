/**
 The PONG queue of a client, epoch by epoch: when it lists the unanswered PINGs, and when a `FlushTimeout` that
 returns nil proves that the peer has what was appended before.
 */
module Barriers {
  import opened Prelude
  import opened ClientCore
  import opened Protocol
  import W = Writer

  /**
   The epochs in which a PONG means what `FlushTimeout` takes it to mean: on the connection made by `Connect`, while
   no pending buffer has interfered and nothing was accepted after lost bytes, with a peer that only answers, and while
   no answer from an earlier connection has taken an entry off the queue.
   */
  ghost predicate Live(s: State) {
    s.core.w.plain && W.PlacePrefix(s.core.w) && s.epoch.redials == 0 && s.epoch.orderly && s.epoch.strays == 0
  }

  /** PINGs sent in this epoch or about to be appended. */
  function Pings(s: State): nat { |s.epoch.marks| + if s.lock == Pinging then 1 else 0 }

  // ---- the queue ----

  /** A waiter of the epoch: the ones with lower numbers are from before it. */
  predicate Younger(ch: Chan, elders: nat, ws: seq<Waiter>) { elders <= ch < |ws| }

  /** What the queue holds at the place of a waiter's PING. */
  function EntryOf(ws: seq<Waiter>, ch: Chan): Option<Chan>
    requires ch < |ws|
  {
    if ws[ch].phase == WaiterPhase.Returned(false) then None else Some(ch)
  }

  /** The answers to the PINGs of these waiters were handled. */
  ghost predicate AnswersHandled(f: seq<Chan>, ws: seq<Waiter>, elders: nat, ponged: nat) {
    forall i: nat :: i < |f| && f[i] >= elders ==> f[i] < |ws| && ws[f[i]].ping < ponged
  }

  /** The queue lists the PINGs without a handled answer, in order; a waiter that gave up left a nil in its place. */
  ghost predicate QueueAligned(q: seq<Option<Chan>>, f: seq<Chan>, ws: seq<Waiter>, elders: nat, ponged: nat, pings: nat) {
    && |q| + ponged == pings
    && (forall ch: nat :: Younger(ch, elders, ws) ==> ws[ch].ping < pings && (ws[ch].sends > 0 ==> ws[ch].ping < ponged))
    && (forall ch: nat :: Younger(ch, elders, ws) && ws[ch].ping >= ponged ==> q[ws[ch].ping - ponged] == EntryOf(ws, ch))
    && (forall i: nat :: i < |q| && q[i].Some? ==>
          Younger(q[i].value, elders, ws) && ws[q[i].value].ping == ponged + i)
    && AnswersHandled(f, ws, elders, ponged)
  }

  lemma AlignedLength(q: seq<Option<Chan>>, f: seq<Chan>, ws: seq<Waiter>, elders: nat, ponged: nat, pings: nat)
    requires QueueAligned(q, f, ws, elders, ponged, pings)
    ensures |q| + ponged == pings
  {
  }

  lemma PlaceOf(q: seq<Option<Chan>>, f: seq<Chan>, ws: seq<Waiter>, elders: nat, ponged: nat, pings: nat, c: nat)
    requires QueueAligned(q, f, ws, elders, ponged, pings) && Younger(c, elders, ws)
    ensures ws[c].ping < pings == |q| + ponged && (ws[c].sends > 0 ==> ws[c].ping < ponged)
    ensures ws[c].ping >= ponged ==> q[ws[c].ping - ponged] == EntryOf(ws, c)
  {
  }

  lemma AlignEnqueue(q: seq<Option<Chan>>, f: seq<Chan>, ws: seq<Waiter>, elders: nat, ponged: nat, pings: nat, x: Waiter)
    requires QueueAligned(q, f, ws, elders, ponged, pings) && elders <= |ws|
    requires x.ping == pings && x.sends == 0 && x.phase == Waiting
    ensures QueueAligned(q + [Some(|ws|)], f, ws + [x], elders, ponged, pings + 1)
  {
  }

  lemma AlignEnqueueNil(q: seq<Option<Chan>>, f: seq<Chan>, ws: seq<Waiter>, elders: nat, ponged: nat, pings: nat)
    requires QueueAligned(q, f, ws, elders, ponged, pings)
    ensures QueueAligned(q + [None], f, ws, elders, ponged, pings + 1)
  {
  }

  lemma AlignPop(q: seq<Option<Chan>>, f: seq<Chan>, ws: seq<Waiter>, elders: nat, ponged: nat, pings: nat)
    requires QueueAligned(q, f, ws, elders, ponged, pings) && q != []
    ensures QueueAligned(q[1..], if q[0].Some? then f + [q[0].value] else f, ws, elders, ponged + 1, pings)
  {
  }

  lemma AlignSend(q: seq<Option<Chan>>, f: seq<Chan>, ws: seq<Waiter>, elders: nat, ponged: nat, pings: nat, i: nat)
    requires QueueAligned(q, f, ws, elders, ponged, pings) && OnePlace(q, f, ws) && i < |f|
    ensures f[i] < |ws|
    ensures QueueAligned(q, f[..i] + f[i + 1..], ws[f[i] := ws[f[i]].(sends := ws[f[i]].sends + 1)], elders, ponged, pings)
  {
  }

  lemma AlignOwner(q: seq<Option<Chan>>, f: seq<Chan>, ws: seq<Waiter>, elders: nat, ponged: nat, pings: nat, ch: Chan, x: Waiter)
    requires QueueAligned(q, f, ws, elders, ponged, pings) && ch < |ws| && ws[ch].phase == Waiting
    requires x.ping == ws[ch].ping && x.sends == ws[ch].sends && x.phase != WaiterPhase.Returned(false)
    ensures QueueAligned(q, f, ws[ch := x], elders, ponged, pings)
  {
  }

  /** Places that held a waiter become nil when it gives up. */
  lemma AlignGone(
    q: seq<Option<Chan>>, p: seq<Option<Chan>>, f: seq<Chan>, ws: seq<Waiter>, elders: nat, ponged: nat, pings: nat, ch: Chan)
    requires QueueAligned(q, f, ws, elders, ponged, pings) && ch < |ws|
    requires |p| == |q| && forall i: nat :: i < |q| ==> p[i] == if q[i] == Some(ch) then None else q[i]
    ensures QueueAligned(p, f, ws[ch := ws[ch].(phase := WaiterPhase.Returned(false))], elders, ponged, pings)
  {
  }

  /** A waiter that gives up: its place in the queue becomes nil, if it is still there. */
  lemma AlignRemove(q: seq<Option<Chan>>, f: seq<Chan>, ws: seq<Waiter>, elders: nat, ponged: nat, pings: nat, ch: Chan)
    requires QueueAligned(q, f, ws, elders, ponged, pings) && ch < |ws| && ws[ch].phase == Expired
    requires OnePlace(q, f, ws)
    ensures QueueAligned(Forget(q, ch), f, ws[ch := ws[ch].(phase := WaiterPhase.Returned(false))], elders, ponged, pings)
  {
    SignalFacts(q, f, ws);
    ForgetPointwise(q, ch);
    hide Forget, OnePlace, QueueAligned;
    AlignGone(q, Forget(q, ch), f, ws, elders, ponged, pings, ch);
  }

  predicate MovesQueue(step: Step) {
    step.FlushBegins? || step.TimerFires? || step.PongTaken? || step.Signal? || step.Wake? || step.TimeOut?
    || step.RemoveEntry?
  }

  /** The queue, the waiters and the count of PINGs change only in the steps above, or with the epoch. */
  lemma QueueSame(s: State, cfg: Config, step: Step)
    requires Enabled(s, cfg, step) && !MovesQueue(step) && step != ConnectDials && Live(Next(s, cfg, step))
    ensures var t := Next(s, cfg, step);
            && t.core.pongs == s.core.pongs && t.inflight == s.inflight && t.waiters == s.waiters
            && t.epoch.elders == s.epoch.elders && t.epoch.ponged == s.epoch.ponged && Pings(t) == Pings(s)
  {
    hide W.Write, PeerWire, IsNext, NextLinks, Forget, W.PlacePrefix;
  }

  ghost predicate Listed(s: State) {
    && s.epoch.elders <= |s.waiters|
    && QueueAligned(s.core.pongs, s.inflight, s.waiters, s.epoch.elders, s.epoch.ponged, Pings(s))
  }

  lemma QueueStep(s: State, cfg: Config, step: Step)
    requires Signals(s) && Enabled(s, cfg, step) && Listed(s) && s.epoch.ponged + s.epoch.owed <= |s.epoch.marks|
    requires Live(Next(s, cfg, step)) && step != ConnectDials
    ensures Listed(Next(s, cfg, step))
  {
    if !MovesQueue(step) {
      QueueSame(s, cfg, step);
      hide *;
      SameListed(s, Next(s, cfg, step));
    } else {
      hide *;
      if step.FlushBegins? || step.TimerFires? || step.PongTaken? {
        QueueStepPings(s, cfg, step);
      } else {
        QueueStepWaiters(s, cfg, step);
      }
    }
  }

  lemma SameListed(s: State, t: State)
    requires Listed(s)
    requires t.core.pongs == s.core.pongs && t.inflight == s.inflight && t.waiters == s.waiters
    requires t.epoch.elders == s.epoch.elders && t.epoch.ponged == s.epoch.ponged && Pings(t) == Pings(s)
    ensures Listed(t)
  {
    hide QueueAligned, Pings;
  }

  lemma QueueStepPings(s: State, cfg: Config, step: Step)
    requires Signals(s) && Enabled(s, cfg, step) && Listed(s) && s.epoch.ponged + s.epoch.owed <= |s.epoch.marks|
    requires Live(Next(s, cfg, step)) && (step.FlushBegins? || step.TimerFires? || step.PongTaken?)
    ensures Listed(Next(s, cfg, step))
  {
    var q, f, ws, e, n := s.core.pongs, s.inflight, s.waiters, s.epoch, Pings(s);
    hide QueueAligned, OnePlace, Forget, PeerWire, IsNext, NextLinks, W.Write, W.PlacePrefix;
    match step
    case FlushBegins =>
      AlignEnqueue(q, f, ws, e.elders, e.ponged, n, Waiter(|s.core.w.appended|, |e.marks|, 0, false, Waiting));
    case TimerFires => AlignEnqueueNil(q, f, ws, e.elders, e.ponged, n);
    case PongTaken =>
      AlignedLength(q, f, ws, e.elders, e.ponged, n);
      AlignPop(q, f, ws, e.elders, e.ponged, n);
  }

  lemma QueueStepWaiters(s: State, cfg: Config, step: Step)
    requires Signals(s) && Enabled(s, cfg, step) && Listed(s)
    requires step.Signal? || step.Wake? || step.TimeOut? || step.RemoveEntry?
    ensures Listed(Next(s, cfg, step))
  {
    var q, f, ws, e, n := s.core.pongs, s.inflight, s.waiters, s.epoch, Pings(s);
    hide QueueAligned, OnePlace, Forget, PeerWire, IsNext, NextLinks, W.Write, W.PlacePrefix;
    match step
    case Signal(i) => AlignSend(q, f, ws, e.elders, e.ponged, n, i);
    case Wake(ch) => AlignOwner(q, f, ws, e.elders, e.ponged, n, ch, ws[ch].(closed := true, phase := WaiterPhase.Returned(true)));
    case TimeOut(ch) => AlignOwner(q, f, ws, e.elders, e.ponged, n, ch, ws[ch].(phase := Expired));
    case RemoveEntry(ch) => AlignRemove(q, f, ws, e.elders, e.ponged, n, ch);
  }

  lemma SignalFacts(q: seq<Option<Chan>>, f: seq<Chan>, ws: seq<Waiter>)
    requires OnePlace(q, f, ws)
    ensures forall i: nat :: i < |f| ==> f[i] < |ws|
    ensures forall i, j :: 0 <= i < j < |q| && q[i].Some? ==> q[i] != q[j]
    ensures forall i: nat, k: nat :: i < |f| && k < |q| ==> q[k] != Some(f[i])
  {
  }

  // ---- what the peer has read ----

  lemma LongerWindow<T>(a: seq<T>, b: seq<T>, start: nat, n: nat, m: nat)
    requires a <= b && start + n <= |a| && n <= m && start + m <= |b|
    ensures b[start..][..m] == a[start..][..n] + b[start..][..m][n..]
  {
    forall i | 0 <= i < n ensures b[start..][..m][i] == a[start..][..n][i] {
      assert b[start + i] == a[start + i];
    }
  }

  predicate WithinWire(s: State) { s.core.w.start + s.epoch.got <= |s.core.w.wires| }

  lemma PeerWireIs(s: State)
    requires WithinWire(s)
    ensures PeerWire(s) == s.core.w.wires[s.core.w.start..][..s.epoch.got] && PeerBytes(s) == W.Buffered(PeerWire(s))
  {
  }

  lemma GotMoves(s: State, cfg: Config, step: Step)
    requires Enabled(s, cfg, step) && step != ConnectDials && !step.WorkerDials?
    ensures var t := Next(s, cfg, step);
            if step.PeerReads? then t.core == s.core && s.epoch.got <= t.epoch.got && WithinWire(t)
            else t.epoch.got == s.epoch.got
  {
    hide PeerWire, IsNext, NextLinks, Forget, W.Write, W.Cells;
  }

  lemma BindsNot(s: State, cfg: Config, step: Step)
    requires Enabled(s, cfg, step) && step != ConnectDials && !step.WorkerDials?
    ensures WriterOp(s, cfg, step).Some? ==> !WriterOp(s, cfg, step).value.DoBind?
  {
    hide PeerWire, IsNext, NextLinks, Forget, W.Write;
  }

  /** While the connection stays, wire, log and what the peer has read never get less. */
  lemma PeerBytesGrow(s: State, cfg: Config, step: Step)
    requires Ready(s, cfg) && Enabled(s, cfg, step) && step != ConnectDials && !step.WorkerDials? && WithinWire(s)
    ensures var t := Next(s, cfg, step);
            && WithinWire(t) && PeerBytes(s) <= PeerBytes(t)
            && t.core.w.base == s.core.w.base && s.core.w.appended <= t.core.w.appended
  {
    var t := Next(s, cfg, step);
    WriterMoves(s, cfg, step);
    BindsNot(s, cfg, step);
    GotMoves(s, cfg, step);
    PeerWireIs(s);
    WiresGrowInStep(s, cfg, step);
    PeerWireIs(t);
    hide *;
    var before, now := PeerWire(s), PeerWire(t);
    LongerWindow(s.core.w.wires, t.core.w.wires, s.core.w.start, s.epoch.got, t.epoch.got);
    W.BufferedConcat(before, now[s.epoch.got..]);
  }

  lemma WiresGrowInStep(s: State, cfg: Config, step: Step)
    requires Ready(s, cfg) && Enabled(s, cfg, step) && step != ConnectDials && !step.WorkerDials? && WithinWire(s)
    ensures var t := Next(s, cfg, step);
            && t.core.w.start == s.core.w.start && s.epoch.got <= t.epoch.got && WithinWire(t)
            && s.core.w.wires <= t.core.w.wires
            && t.core.w.base == s.core.w.base && s.core.w.appended <= t.core.w.appended
  {
    WriterMoves(s, cfg, step);
    BindsNot(s, cfg, step);
    GotMoves(s, cfg, step);
    hide Next, Enabled, Ready, WriterOp;
    if WriterOp(s, cfg, step).Some? {
      W.WiresGrow(s.core.w, WriterOp(s, cfg, step).value);
    }
  }

  /** In a live epoch the peer has read the places from where the connection began, without a gap. */
  lemma PeerReadExactly(s: State, p: int)
    requires W.ConnInv(s.core.w) && Live(s) && WithinWire(s)
    ensures PeerRead(s, p) <==> s.core.w.base <= p < s.core.w.base + |PeerBytes(s)|
  {
    PeerReadsPrefix(s);
    var wire, kept, base := PeerWire(s), W.Kept(PeerWire(s)), s.core.w.base;
    assert |kept| == |PeerBytes(s)|;
    assert forall j :: 0 <= j < |kept| ==> kept[j].at == Some(base + j);
    hide W.ConnInv, PeerWire, W.Kept, W.Cells, Live;
    if PeerRead(s, p) {
      var i :| 0 <= i < |wire| && wire[i].at == Some(p);
      W.KeptMember(wire, wire[i]);
    }
    if base <= p < base + |kept| {
      W.KeptMember(wire, kept[p - base]);
      assert kept[p - base] in wire;
    }
  }

  /** What the peer has read is a prefix of what was appended on this connection. */
  lemma PeerReadsPrefix(s: State)
    requires W.ConnInv(s.core.w) && Live(s) && WithinWire(s)
    ensures s.core.w.base <= |s.core.w.appended| && PeerBytes(s) <= s.core.w.appended[s.core.w.base..]
    ensures W.Kept(PeerWire(s)) == W.Cells(PeerBytes(s), Some(s.core.w.base))
  {
    PeerWireIs(s);
    assert PeerWire(s) <= W.Wire(s.core.w);
    hide PeerWire;
    W.PlainFront(s.core.w, PeerWire(s));
  }

  // ---- PINGs and answers ----

  /** PINGs end at increasing places of the log, behind the place where the connection began. */
  ghost predicate Marked(marks: seq<nat>, first: nat, end: nat) {
    && (forall k: nat :: k < |marks| ==> first < marks[k] <= end)
    && (forall i: nat, j: nat :: i <= j < |marks| ==> marks[i] <= marks[j])
  }

  lemma MarkedLater(marks: seq<nat>, first: nat, end: nat, end': nat)
    requires Marked(marks, first, end) && end <= end'
    ensures Marked(marks, first, end')
    ensures first <= end < end' ==> Marked(marks + [end'], first, end')
  {
  }

  /** Every answer sent was handled or is on its way, and the PINGs that were answered had been read. */
  ghost predicate Heard(s: State) {
    var w, e := s.core.w, s.epoch;
    && e.ponged + e.owed == e.answered <= |e.marks|
    && WithinWire(s)
    && e.past == [] && e.first == w.base <= |w.appended|
    && Marked(e.marks, w.base, |w.appended|)
    && (forall k: nat :: k < e.answered ==> e.marks[k] <= w.base + |PeerBytes(s)|)
  }

  /** The next PING the peer answers is the next one in the epoch. */
  lemma AnswersInTurn(s: State, k: nat)
    requires W.ConnInv(s.core.w) && Live(s) && Heard(s) && IsNext(s, k)
    ensures k == s.epoch.answered && s.epoch.marks[k] <= s.core.w.base + |PeerBytes(s)|
  {
    var a := s.epoch.answered;
    PeerReadExactly(s, s.epoch.marks[k] - 1);
    PeerReadExactly(s, s.epoch.marks[a] - 1);
    hide W.ConnInv, Live, PeerWire, PeerRead;
    assert Seen(s, a);
  }

  /** What a step within an epoch does to the logs of PINGs and answers. */
  lemma EpochMoves(s: State, cfg: Config, step: Step)
    requires Enabled(s, cfg, step) && step != ConnectDials && !step.WorkerDials? && Next(s, cfg, step).epoch.orderly
    ensures var e, t := s.epoch, Next(s, cfg, step);
            && t.epoch.first == e.first && t.epoch.past == e.past
            && t.epoch.marks == (if step == PingAppended then e.marks + [|t.core.w.appended|] else e.marks)
            && (step == PingAppended ==> |s.core.w.appended| < |t.core.w.appended|)
            && t.epoch.answered == (if step.PeerAnswers? then step.k + 1 else e.answered)
            && t.epoch.ponged + t.epoch.owed == e.ponged + e.owed + (if step.PeerAnswers? then 1 else 0)
  {
    hide PeerWire, IsNext, NextLinks, Forget, W.Write;
  }

  lemma HeardStep(s: State, cfg: Config, step: Step)
    requires Ready(s, cfg) && W.ConnInv(s.core.w) && Live(s) && Heard(s) && Enabled(s, cfg, step)
    requires step != ConnectDials && !step.WorkerDials? && Next(s, cfg, step).epoch.orderly
    ensures Heard(Next(s, cfg, step))
  {
    PeerBytesGrow(s, cfg, step);
    EpochMoves(s, cfg, step);
    if step.PeerAnswers? {
      AnswersInTurn(s, step.k);
    }
    var t := Next(s, cfg, step);
    MarkedLater(s.epoch.marks, s.core.w.base, |s.core.w.appended|, |t.core.w.appended|);
    hide Ready, W.ConnInv, Live, PeerBytes, Next, Enabled, IsNext, NextLinks, Marked;
  }

  // ---- calls and their PINGs ----

  /** In every state, a call comes before its PING. */
  ghost predicate Called(s: State) {
    var e := s.epoch;
    && e.first <= |s.core.w.appended| && e.elders <= |s.waiters|
    && (forall k: nat :: k < |e.marks| ==> e.marks[k] <= |s.core.w.appended|)
    && (forall ch: nat :: Younger(ch, e.elders, s.waiters) ==> CallFits(e, |s.core.w.appended|, s.waiters[ch]))
  }

  predicate CallFits(e: Epoch, appended: nat, x: Waiter) {
    e.first <= x.since <= appended && (x.ping < |e.marks| ==> x.since <= e.marks[x.ping])
  }

  lemma CalledStep(s: State, cfg: Config, step: Step)
    requires Ready(s, cfg) && Signals(s) && Called(s) && Enabled(s, cfg, step)
    ensures Called(Next(s, cfg, step))
  {
    SignalFacts(s.core.pongs, s.inflight, s.waiters);
    CallsMove(s, cfg, step);
    LogGrows(s, cfg, step);
    hide Ready, OnePlace, Next, Enabled;
  }

  lemma LogGrows(s: State, cfg: Config, step: Step)
    requires Ready(s, cfg) && Enabled(s, cfg, step)
    ensures |s.core.w.appended| <= |Next(s, cfg, step).core.w.appended|
  {
    WriterMoves(s, cfg, step);
    hide *;
    if WriterOp(s, cfg, step).Some? {
      W.WiresGrow(s.core.w, WriterOp(s, cfg, step).value);
    }
  }

  /** A step changes neither when a call began nor which PING is its own. */
  lemma CallsMove(s: State, cfg: Config, step: Step)
    requires Enabled(s, cfg, step) && forall i: nat :: i < |s.inflight| ==> s.inflight[i] < |s.waiters|
    ensures var t := Next(s, cfg, step);
            && (if step == ConnectDials then t.epoch.first == |t.core.w.appended| && t.epoch.marks == [] && t.epoch.elders == |t.waiters|
                else t.epoch.first == s.epoch.first && t.epoch.elders == s.epoch.elders
                     && t.epoch.marks == if step == PingAppended then s.epoch.marks + [|t.core.w.appended|] else s.epoch.marks)
            && |t.waiters| == |s.waiters| + (if step == FlushBegins then 1 else 0)
            && (forall ch: nat :: ch < |s.waiters| ==> t.waiters[ch].since == s.waiters[ch].since && t.waiters[ch].ping == s.waiters[ch].ping)
            && (step == FlushBegins ==> t.waiters[|s.waiters|].since == |s.core.w.appended| && t.waiters[|s.waiters|].ping == |s.epoch.marks|)
  {
    hide PeerWire, IsNext, NextLinks, Forget, W.Write;
  }

  // ---- calls that time out ----

  /**
   A `FlushTimeout` that times out leaves nothing behind: its channel is no longer in the queue, and every other place
   is as before.
   */
  lemma TimeOutLeavesNil(s: State, cfg: Config, ch: Chan)
    requires Signals(s) && ch < |s.waiters| && s.waiters[ch].phase == Waiting && s.lock == Free
    ensures Enabled(s, cfg, TimeOut(ch)) && Enabled(Next(s, cfg, TimeOut(ch)), cfg, RemoveEntry(ch))
    ensures var q, t := s.core.pongs, Next(Next(s, cfg, TimeOut(ch)), cfg, RemoveEntry(ch));
            && t.waiters[ch].phase == WaiterPhase.Returned(false) && t.core == s.core.(pongs := t.core.pongs)
            && |t.core.pongs| == |q| && Some(ch) !in t.core.pongs
            && forall i: nat :: i < |q| ==> t.core.pongs[i] == if q[i] == Some(ch) then None else q[i]
  {
    SignalFacts(s.core.pongs, s.inflight, s.waiters);
    ForgetPointwise(s.core.pongs, ch);
    hide Forget, OnePlace, PeerWire, IsNext, NextLinks;
  }

  // ---- the invariant ----

  ghost predicate Aligned(s: State) { Live(s) ==> Listed(s) && Heard(s) }

  /** Only the dial of `Connect` starts a live epoch; the dial of a reconnect ends it. */
  lemma LiveBefore(s: State, cfg: Config, step: Step)
    requires Ready(s, cfg) && W.ConnInv(s.core.w) && Enabled(s, cfg, step) && step != ConnectDials
    requires Live(Next(s, cfg, step))
    ensures Live(s) && !step.WorkerDials? && Next(s, cfg, step).epoch.orderly
  {
    WriterMoves(s, cfg, step);
    RedialsGrow(s, cfg, step);
    if !step.WorkerDials? {
      BindsNot(s, cfg, step);
      hide Next, Enabled, Ready, WriterOp, W.PlacePrefix, W.ConnInv;
      if WriterOp(s, cfg, step).Some? {
        W.PlainBefore(s.core.w, WriterOp(s, cfg, step).value);
        W.PrefixStep(s.core.w, WriterOp(s, cfg, step).value);
      }
    }
  }

  lemma RedialsGrow(s: State, cfg: Config, step: Step)
    requires Enabled(s, cfg, step) && step != ConnectDials
    ensures var e, t := s.epoch, Next(s, cfg, step).epoch;
            t.redials == e.redials + (if step.WorkerDials? then 1 else 0) && (t.orderly ==> e.orderly)
            && e.strays <= t.strays
  {
    hide PeerWire, IsNext, NextLinks, Forget, W.Write;
  }

  lemma NewEpoch(s: State, cfg: Config)
    requires Enabled(s, cfg, ConnectDials) && Signals(s)
    ensures var t := Next(s, cfg, ConnectDials); Listed(t) && Heard(t)
  {
    SignalFacts(s.core.pongs, s.inflight, s.waiters);
    hide PeerWire, OnePlace, W.Write;
    var t := Next(s, cfg, ConnectDials);
    assert t.core.pongs == [] && t.epoch == Epoch(|t.waiters|, |t.core.w.appended|, 0, [], [], 0, 0, 0, 0, true, 0);
    assert t.lock == Binding && t.core.w.base == |t.core.w.appended| && t.core.w.start == |t.core.w.wires|;
    assert t.inflight == s.inflight && t.waiters == s.waiters;
  }

  /** One step keeps the queue and the logs of the epoch in agreement; a dial by `Connect` starts afresh. */
  lemma AlignedStep(s: State, cfg: Config, step: Step)
    requires Ready(s, cfg) && W.ConnInv(s.core.w) && Signals(s) && Aligned(s) && Enabled(s, cfg, step)
    ensures Aligned(Next(s, cfg, step))
  {
    hide Ready, W.ConnInv, OnePlace, QueueAligned, Listed, Next, Enabled, Live;
    if step == ConnectDials {
      NewEpoch(s, cfg);
    } else if Live(Next(s, cfg, step)) {
      LiveBefore(s, cfg, step);
      QueueStep(s, cfg, step);
      HeardStep(s, cfg, step);
    }
  }

  /** Everything about a reachable state. */
  ghost predicate Inv(s: State, cfg: Config) { Sound(s, cfg) && Called(s) && Aligned(s) }

  lemma InvInitial(cfg: Config)
    ensures Inv(INITIAL, cfg)
  {
    SoundInitial(cfg);
    hide Sound;
  }

  lemma InvStep(s: State, cfg: Config, step: Step)
    requires Inv(s, cfg) && Enabled(s, cfg, step)
    ensures Inv(Next(s, cfg, step), cfg)
  {
    hide Called, Aligned, Next, Enabled, Ready, Signals, PingCount, W.InOrder, W.Placed, W.ConnInv;
    SoundStep(s, cfg, step);
    CalledStep(s, cfg, step);
    AlignedStep(s, cfg, step);
  }

  lemma {:induction false} Invariant(s: State, cfg: Config, steps: seq<Step>)
    requires Inv(s, cfg) && Possible(s, cfg, steps)
    ensures Inv(After(s, cfg, steps), cfg)
    decreases |steps|
  {
    hide Inv;
    if steps != [] {
      InvStep(s, cfg, steps[0]);
      Invariant(Next(s, cfg, steps[0]), cfg, steps[1..]);
    }
  }

  // ---- the theorems, over every run ----

  /**
   The queue `q` lists exactly the PINGs from number `ponged` on, in order: the place of a waiter's PING holds its
   channel, or nil once it has given up, and every channel is at the place of its own PING.
   */
  ghost predicate ListsUnanswered(q: seq<Option<Chan>>, ws: seq<Waiter>, elders: nat, ponged: nat, pings: nat) {
    && |q| + ponged == pings
    && (forall ch: nat :: Younger(ch, elders, ws) && ws[ch].ping >= ponged ==>
          ws[ch].ping < pings && q[ws[ch].ping - ponged] == EntryOf(ws, ch))
    && (forall i: nat :: i < |q| && q[i].Some? ==> Younger(q[i].value, elders, ws) && ws[q[i].value].ping == ponged + i)
  }

  /** In a live epoch the queue lists exactly the PINGs of the epoch without a handled answer, in order. */
  lemma QueueListsUnanswered(cfg: Config, steps: seq<Step>)
    requires Possible(INITIAL, cfg, steps)
    ensures var s := After(INITIAL, cfg, steps);
            Live(s) ==> ListsUnanswered(s.core.pongs, s.waiters, s.epoch.elders, s.epoch.ponged, Pings(s))
  {
    InvInitial(cfg);
    Invariant(INITIAL, cfg, steps);
    hide *;
    var s := After(INITIAL, cfg, steps);
    if Live(s) {
      AlignedOf(s, cfg);
      QueueMeaning(s.core.pongs, s.inflight, s.waiters, s.epoch.elders, s.epoch.ponged, Pings(s));
    }
  }

  lemma AlignedOf(s: State, cfg: Config)
    requires Inv(s, cfg) && Live(s)
    ensures QueueAligned(s.core.pongs, s.inflight, s.waiters, s.epoch.elders, s.epoch.ponged, Pings(s))
  {
    hide QueueAligned, Sound, Called, Heard;
  }

  lemma QueueMeaning(q: seq<Option<Chan>>, f: seq<Chan>, ws: seq<Waiter>, elders: nat, ponged: nat, pings: nat)
    requires QueueAligned(q, f, ws, elders, ponged, pings)
    ensures ListsUnanswered(q, ws, elders, ponged, pings)
  {
  }

  /** What came through the buffers and was read by the peer in this epoch, on all its connections. */
  function Received(s: State): seq<byte> { W.Buffered(s.epoch.past + PeerWire(s)) }

  /**
   A `FlushTimeout` of this epoch that returned nil is a barrier: the peer has received everything that was appended
   from the begin of the epoch up to the end of its PING, which includes everything appended before the call.
   */
  ghost predicate Barrier(s: State) {
    forall ch: nat :: Younger(ch, s.epoch.elders, s.waiters) && s.waiters[ch].phase == WaiterPhase.Returned(true) ==>
      BarrierFor(s, s.waiters[ch])
  }

  ghost predicate BarrierFor(s: State, x: Waiter) {
    var e, log := s.epoch, s.core.w.appended;
    && x.ping < |e.marks|
    && e.first <= x.since <= e.marks[x.ping] <= |log|
    && log[e.first..e.marks[x.ping]] <= Received(s)
  }

  /** In a live epoch flush is a barrier. */
  lemma FlushIsBarrier(cfg: Config, steps: seq<Step>)
    requires Possible(INITIAL, cfg, steps)
    ensures Live(After(INITIAL, cfg, steps)) ==> Barrier(After(INITIAL, cfg, steps))
  {
    InvInitial(cfg);
    Invariant(INITIAL, cfg, steps);
    hide *;
    if Live(After(INITIAL, cfg, steps)) {
      BarrierAt(After(INITIAL, cfg, steps), cfg);
    }
  }

  lemma BarrierAt(s: State, cfg: Config)
    requires Inv(s, cfg) && Live(s)
    ensures Barrier(s)
  {
    UseInv(s, cfg);
    hide Inv, Live, Listed, PeerWire, PeerBytes, W.ConnInv, Signals, Heard, Called, BarrierFor;
    forall ch: nat | Younger(ch, s.epoch.elders, s.waiters) && s.waiters[ch].phase == WaiterPhase.Returned(true)
      ensures BarrierFor(s, s.waiters[ch])
    {
      WokenIsCovered(s, ch);
    }
  }

  lemma UseInv(s: State, cfg: Config)
    requires Inv(s, cfg) && Live(s)
    ensures W.ConnInv(s.core.w) && Signals(s) && Listed(s) && Heard(s) && Called(s)
  {
    hide OnePlace, QueueAligned, Ready, PingCount, W.InOrder, W.Placed, W.ConnInv, Heard, Called;
  }

  /** The answer that woke a waiter was for its own PING, and the peer had read up to that PING. */
  lemma WokenIsCovered(s: State, ch: Chan)
    requires W.ConnInv(s.core.w) && Signals(s) && Listed(s) && Heard(s) && Called(s) && Live(s)
    requires Younger(ch, s.epoch.elders, s.waiters) && s.waiters[ch].phase == WaiterPhase.Returned(true)
    ensures BarrierFor(s, s.waiters[ch])
  {
    hide W.ConnInv, OnePlace, QueueAligned, Live, PeerWire, W.Kept, W.Cells, Marked;
    var e, w, x := s.epoch, s.core.w, s.waiters[ch];
    WasSent(s, ch);
    PlaceOf(s.core.pongs, s.inflight, s.waiters, e.elders, e.ponged, Pings(s), ch);
    PeerReadsPrefix(s);
    var mark := e.marks[x.ping];
    assert [] + PeerWire(s) == PeerWire(s);
    assert Received(s) == PeerBytes(s);
    assert CallFits(e, |w.appended|, x);
    assert w.appended[w.base..mark] == w.appended[w.base..][..mark - w.base];
  }

  lemma WasSent(s: State, ch: Chan)
    requires Signals(s) && ch < |s.waiters| && s.waiters[ch].phase == WaiterPhase.Returned(true)
    ensures s.waiters[ch].sends == 1
  {
    assert s.waiters[ch].closed;
  }
}
