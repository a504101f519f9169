/**
 The exact limits of the flush barrier: which clients have it, and which calls of `Connect` keep it. Runs show the
 conditions necessary.
 */
module Limits {
  import opened Prelude
  import opened ClientCore
  import opened Protocol
  import opened Barriers
  import opened Runs
  import opened Wires
  import W = Writer

  /**
   Without automatic reconnects there is never a pending buffer, and before the first bind there are no waiters, PINGs
   and answers.
   */
  predicate Steady(s: State, cfg: Config) {
    && (!s.core.w.bound ==>
          && s.waiters == [] && s.epoch.marks == [] && s.epoch.owed == 0
          && s.lock == Free && s.core.status != Connected)
    && (!cfg.autoReconn ==>
          && s.core.w.pending.None? && s.workers == 0 && !Attempting(s) && s.epoch.redials == 0
          && (s.core.w.bound ==> s.core.w.plain))
  }

  lemma SteadyStep(s: State, cfg: Config, step: Step)
    requires Steady(s, cfg) && Enabled(s, cfg, step)
    ensures Steady(Next(s, cfg, step), cfg)
  {
    if OfConnect(step) {
      SteadyStepConnects(s, cfg, step);
    } else if OfWorker(step) || step.ReadOrPingFails? {
      SteadyStepWorker(s, cfg, step);
    } else {
      SteadyStepOther(s, cfg, step);
    }
  }

  lemma SteadyStepConnects(s: State, cfg: Config, step: Step)
    requires Steady(s, cfg) && Enabled(s, cfg, step) && OfConnect(step)
    ensures Steady(Next(s, cfg, step), cfg)
  {
    hide W.Cells, Forget, PeerWire, IsNext, PeerRead, NextLinks;
  }

  lemma SteadyStepWorker(s: State, cfg: Config, step: Step)
    requires Steady(s, cfg) && Enabled(s, cfg, step) && (OfWorker(step) || step.ReadOrPingFails?)
    ensures Steady(Next(s, cfg, step), cfg)
  {
    hide W.Cells, Forget, PeerWire, IsNext, PeerRead, NextLinks;
  }

  lemma SteadyStepOther(s: State, cfg: Config, step: Step)
    requires Steady(s, cfg) && Enabled(s, cfg, step) && !OfConnect(step) && !OfWorker(step) && !step.ReadOrPingFails?
    ensures Steady(Next(s, cfg, step), cfg)
  {
    hide W.Cells, Forget, PeerWire, PeerRead, NextLinks;
  }

  lemma {:induction false} SteadyRun(s: State, cfg: Config, steps: seq<Step>)
    requires Steady(s, cfg) && Possible(s, cfg, steps)
    ensures Steady(After(s, cfg, steps), cfg)
    decreases |steps|
  {
    hide Steady, Next, Enabled;
    if steps != [] {
      SteadyStep(s, cfg, steps[0]);
      SteadyRun(Next(s, cfg, steps[0]), cfg, steps[1..]);
    }
  }

  /** A `FlushTimeout` has sent a byte and its PING, but nothing of it got out, and the connection goes on. */
  predicate Lost(s: State, cfg: Config) {
    var w, e, n := s.core.w, s.epoch, 1 + |cfg.ping|;
    && s.core.status == Connected && s.lock == Free && s.core.pongs == [Some(0)] && s.inflight == []
    && s.links.open && s.links.loops
    && s.waiters == [Waiter(1, 0, 0, false, Waiting)]
    && w.bound && w.pending.None? && !(w.sticky && w.broken) && w.bufs == [] && w.wires == [] && w.start == 0
    && |w.appended| == n
    && e.elders == 0 && e.first == 0 && e.past == [] && e.marks == [n] && e.answered == 0 && e.owed == 0 && e.got == 0 && e.orderly
  }

  lemma NothingSent(w: W.WState)
    requires w.pending.None? && !w.broken
    ensures W.DEAD.Fits(w.bufs)
    ensures var t := W.Flush(w, W.DEAD); t == w.(bufs := [], handed := t.handed, broken := true)
  {
    assert w.wires + W.Cells(w.bufs, W.Origin(w, w.bufs, true))[..0] == w.wires;
  }

  /** A `FlushTimeout` with byte `b` in the buffer, up to the flush. */
  lemma BeginFlush(cfg: Config, b: byte) returns (s: State)
    ensures Leads(cfg, INITIAL, s) && s.lock == Pinged && s.core.status == Connected && s.workers == 0
    ensures s.core.pongs == [Some(0)] && s.inflight == [] && s.waiters == [Waiter(1, 0, 0, false, Waiting)]
    ensures s.epoch == INITIAL.epoch.(marks := [1 + |cfg.ping|]) && s.links == Online(cfg).links
    ensures var w := W.Bind(W.FRESH, cfg.sticky); s.core.w == w.(bufs := [b] + cfg.ping, appended := [b] + cfg.ping)
  {
    hide Leads, PeerWire, IsNext, W.Write;
    GoOnline(cfg);
    s := Online(cfg);
    s := Go(cfg, INITIAL, s, Append([b]));
    assert s.core.w.appended == [b] == s.core.w.bufs;
    s := Go(cfg, INITIAL, s, FlushBegins);
    assert s.core.pongs == [Some(0)] && s.waiters == [Waiter(1, 0, 0, false, Waiting)];
    s := Go(cfg, INITIAL, s, PingAppended);
  }

  /** The first byte is appended, flushed and lost with its PING. */
  lemma LoseFlush(cfg: Config, b: byte) returns (s: State)
    ensures Leads(cfg, INITIAL, s) && s.core.w.appended == [b] + cfg.ping
    ensures s.core.w.broken && s.core.w.sticky == cfg.sticky && s.workers == 0 && s.epoch.redials == 0
    ensures !cfg.sticky ==> Lost(s, cfg)
    ensures Lost(s.(core := s.core.(w := s.core.w.(broken := false))), cfg)
  {
    hide Leads, PeerWire, IsNext, W.Write;
    s := BeginFlush(cfg, b);
    NothingSent(s.core.w);
    s := Go(cfg, INITIAL, s, PingFlushed(W.DEAD));
  }

  /** The client notices, and its worker makes a new connection; the PONG queue is not reset. */
  lemma Reconnect(cfg: Config, s: State) returns (t: State)
    requires Leads(cfg, INITIAL, s) && cfg.autoReconn && s.workers == 0 && s.epoch.redials == 0
    requires Lost(s.(core := s.core.(w := s.core.w.(broken := false))), cfg)
    ensures Leads(cfg, INITIAL, t) && Lost(t, cfg) && t.core.w.appended == s.core.w.appended
    ensures !t.core.w.broken && t.epoch.redials == 1
  {
    hide Leads, W.Write;
    t := Go(cfg, INITIAL, s, ReadOrPingFails);
    assert t == s.(core := s.core.(status := Status.Reconnecting, conn := false, w := W.SwitchToPending(s.core.w)), workers := 1,
                  links := s.links.(open := false));
    t := Redial(cfg, t);
  }

  lemma Redial(cfg: Config, s: State) returns (t: State)
    requires Leads(cfg, INITIAL, s) && s.core.status == Status.Reconnecting && s.lock == Free && s.workers == 1
    requires s.core.w.pending == Some([]) && s.epoch.got == 0 && s.core.w.start <= |s.core.w.wires|
    ensures Leads(cfg, INITIAL, t)
    ensures t.core.status == Connected && t.core.pongs == s.core.pongs && t.lock == Free
    ensures t.waiters == s.waiters && t.inflight == s.inflight && t.links.open && (s.links.loops ==> t.links.loops)
    ensures t.epoch == s.epoch.(redials := s.epoch.redials + 1, past := s.epoch.past + PeerWire(s), owed := 0)
    ensures var w := t.core.w;
            && w.bound && w.pending.None? && !w.broken && w.bufs == []
            && w.wires == s.core.w.wires && w.start == |w.wires| && w.appended == s.core.w.appended
  {
    hide Leads, PeerWire, IsNext, W.Write;
    t := Go(cfg, INITIAL, s, WorkerDials);
    assert t.links.open && t.links.loops == s.links.loops;
    hide LeftOver, StillToCome;
    assert t.core == s.core.(conn := true, w := W.Bind(s.core.w, cfg.sticky)) && t.lock == Bound;
    t := Go(cfg, INITIAL, t, WorkerInit(true));
    assert t.core == s.core.(status := Connected, pingOut := 0, conn := true, w := W.Bind(s.core.w, cfg.sticky)) && t.lock == Inited;
    t := Drain(cfg, t);
  }

  lemma Drain(cfg: Config, s: State) returns (t: State)
    requires Leads(cfg, INITIAL, s) && s.lock == Inited && s.workers == 1 && s.core.status == Connected && s.core.w.pending == Some([])
    ensures Leads(cfg, INITIAL, t)
    ensures t == s.(core := s.core.(w := s.core.w.(pending := None)), lock := Free, workers := 0)
  {
    hide Leads, PeerWire, IsNext, W.Write;
    t := Go(cfg, INITIAL, s, WorkerDrains(W.DEAD));
    assert t == s.(lock := Drained);
    t := Go(cfg, INITIAL, t, WorkerSucceeds);
  }

  /** The next `FlushTimeout` sends its PING, all of which arrives. */
  lemma NextFlush(cfg: Config, s: State) returns (t: State)
    requires Leads(cfg, INITIAL, s) && Lost(s, cfg)
    ensures Leads(cfg, INITIAL, t) && t.lock == Free && t.inflight == [] && t.links == s.links
    ensures t.core.pongs == [Some(0), Some(1)] && |t.waiters| == 2 && t.waiters[0] == s.waiters[0]
    ensures t.epoch == s.epoch.(marks := [1 + |cfg.ping|, 1 + 2 * |cfg.ping|])
    ensures var w := t.core.w;
            && w.wires == W.Cells(cfg.ping, Some(1 + |cfg.ping|)) && w.start == 0
            && w.appended == s.core.w.appended + cfg.ping && w.broken == s.core.w.broken
  {
    hide Leads, PeerWire, IsNext, W.Write, W.Cells;
    t := Go(cfg, INITIAL, s, FlushBegins);
    t := Go(cfg, INITIAL, t, PingAppended);
    assert [] + cfg.ping == cfg.ping;
    assert t.core.w.bufs == cfg.ping && t.core.w.wires == [] && t.lock == Pinged;
    assert t.epoch == s.epoch.(marks := [1 + |cfg.ping|, 1 + 2 * |cfg.ping|]);
    WholeWrite(t.core.w, cfg.ping);
    t := Go(cfg, INITIAL, t, PingFlushed(W.Net(|cfg.ping|, true)));
  }

  lemma WholeWrite(w: W.WState, data: seq<byte>)
    requires !(w.sticky && w.broken) && w.wires == []
    ensures var t := W.Write(w, data, true, W.Net(|data|, true));
            t == w.(wires := W.Cells(data, Some(|w.appended| - |data|)), handed := t.handed)
  {
    var cells := W.Cells(data, Some(|w.appended| - |data|));
    assert cells[..|data|] == cells && [] + cells == cells;
  }

  /** The peer reads that PING and answers it. */
  lemma PeerActs(cfg: Config, s: State) returns (t: State)
    requires Leads(cfg, INITIAL, s) && s.core.w.start == 0 && s.core.w.wires == W.Cells(cfg.ping, Some(1 + |cfg.ping|))
    requires s.epoch.marks == [1 + |cfg.ping|, 1 + 2 * |cfg.ping|]
    requires s.epoch.answered == 0 && s.epoch.owed == 0 && s.epoch.got == 0 && s.links.open
    ensures Leads(cfg, INITIAL, t) && t == s.(epoch := s.epoch.(got := |cfg.ping|, answered := 2, owed := 1))
    ensures PeerWire(t) == s.core.w.wires
  {
    hide Leads, W.Write, PeerWire, IsNext, W.Cells;
    LengthOfCells(cfg.ping, 1 + |cfg.ping|);
    t := Go(cfg, INITIAL, s, PeerReads(|cfg.ping|));
    SeesSecond(t, cfg);
    t := Go(cfg, INITIAL, t, PeerAnswers(1));
    assert t == s.(epoch := s.epoch.(got := |cfg.ping|, answered := 2, owed := 1));
    SameWire(s.(epoch := s.epoch.(got := |cfg.ping|)), t);
  }

  lemma LengthOfCells(data: seq<byte>, from: int)
    ensures |W.Cells(data, Some(from))| == |data|
  {
  }

  lemma SameWire(s: State, t: State)
    requires t.core == s.core && t.epoch.got == s.epoch.got
    requires s.core.w.start == 0 && s.epoch.got == |s.core.w.wires|
    ensures PeerWire(t) == PeerWire(s) == s.core.w.wires
  {
  }

  lemma SeesSecond(s: State, cfg: Config)
    requires s.core.w.start == 0 && s.core.w.wires == W.Cells(cfg.ping, Some(1 + |cfg.ping|)) && s.epoch.got == |cfg.ping|
    requires s.epoch.marks == [1 + |cfg.ping|, 1 + 2 * |cfg.ping|] && s.epoch.answered == 0
    ensures IsNext(s, 1)
  {
    LengthOfCells(cfg.ping, 1 + |cfg.ping|);
    SameWire(s, s);
    var last := |cfg.ping| - 1;
    assert PeerWire(s)[last].at == Some(2 * |cfg.ping|);
    assert forall i :: 0 <= i < |PeerWire(s)| ==> PeerWire(s)[i].at.value > |cfg.ping|;
  }

  /** Its PONG wakes the waiter at the front of the queue. */
  lemma PongComes(cfg: Config, s: State) returns (t: State)
    requires Leads(cfg, INITIAL, s) && s.core.pongs != [] && s.core.pongs[0] == Some(0) && s.lock == Free && s.inflight == []
    requires |s.waiters| > 0 && s.waiters[0].phase == Waiting && s.waiters[0].sends == 0 && s.epoch.owed == 1
    requires s.links.loops
    ensures Leads(cfg, INITIAL, t) && t.core.w == s.core.w
    ensures |t.waiters| == |s.waiters| && t.waiters[0] == s.waiters[0].(sends := 1, closed := true, phase := WaiterPhase.Returned(true))
    ensures t.epoch == s.epoch.(ponged := s.epoch.ponged + 1, owed := 0)
  {
    hide Leads, PeerWire, IsNext, NextLinks, W.Write;
    t := Go(cfg, INITIAL, s, PongTaken);
    assert t.inflight == [0] && t.waiters == s.waiters && t.core.w == s.core.w;
    t := SignalComes(cfg, t);
  }

  lemma SignalComes(cfg: Config, s: State) returns (t: State)
    requires Leads(cfg, INITIAL, s) && s.inflight == [0]
    requires |s.waiters| > 0 && s.waiters[0].phase == Waiting && s.waiters[0].sends == 0
    ensures Leads(cfg, INITIAL, t) && t.core.w == s.core.w && t.epoch == s.epoch
    ensures |t.waiters| == |s.waiters| && t.waiters[0] == s.waiters[0].(sends := 1, closed := true, phase := WaiterPhase.Returned(true))
  {
    hide Leads, PeerWire, IsNext, NextLinks, W.Write;
    t := Go(cfg, INITIAL, s, Signal(0));
    assert t.waiters[0].sends == 1 && t.core.w == s.core.w;
    t := Go(cfg, INITIAL, t, Wake(0));
  }

  /** The flush of byte `b` has returned nil in this epoch, with an orderly peer, and no wire ever had that byte. */
  ghost predicate FlushLost(s: State, b: byte) {
    var w := s.core.w;
    && s.epoch.orderly && s.epoch.elders == 0 && s.epoch.first == 0
    && |s.waiters| > 0 && s.waiters[0].phase == WaiterPhase.Returned(true) && s.waiters[0].since == 1
    && |w.appended| > 0 && w.appended[0] == b
    && (forall i :: 0 <= i < |w.wires| ==> w.wires[i].at != Some(0))
    && !Barrier(s)
  }

  lemma WakesTheWrongOne(cfg: Config, s: State, b: byte) returns (t: State)
    requires Leads(cfg, INITIAL, s) && Lost(s, cfg) && s.core.w.appended == [b] + cfg.ping
    ensures Leads(cfg, INITIAL, t) && FlushLost(t, b)
    ensures t.core.w.broken == s.core.w.broken && t.epoch.redials == s.epoch.redials
  {
    hide Leads, PeerWire, IsNext, W.Cells, Barrier;
    t := NextFlush(cfg, s);
    t := PeerActs(cfg, t);
    t := PongComes(cfg, t);
    SameWire(t, t) by { LengthOfCells(cfg.ping, 1 + |cfg.ping|); }
    NotReceived(t, cfg);
    PlacesOfCells(cfg.ping, 1 + |cfg.ping|);
  }

  lemma PlacesOfCells(data: seq<byte>, from: nat)
    requires from > 0
    ensures forall i :: 0 <= i < |W.Cells(data, Some(from))| ==> W.Cells(data, Some(from))[i].at != Some(0)
  {
  }

  lemma NotReceived(s: State, cfg: Config)
    requires |s.waiters| > 0 && s.waiters[0].phase == WaiterPhase.Returned(true) && s.waiters[0].ping == 0
    requires s.epoch.elders == 0 && s.epoch.first == 0 && s.epoch.past == [] && |s.epoch.marks| > 0
    requires s.epoch.marks[0] == 1 + |cfg.ping| <= |s.core.w.appended|
    requires PeerWire(s) == W.Cells(cfg.ping, Some(1 + |cfg.ping|))
    ensures !Barrier(s)
  {
    assert [] + PeerWire(s) == PeerWire(s);
    W.BufferedCells(cfg.ping, Some(1 + |cfg.ping|));
    hide PeerWire, W.Cells, W.Buffered;
    assert Received(s) == cfg.ping;
    assert Younger(0, s.epoch.elders, s.waiters);
    assert !BarrierFor(s, s.waiters[0]);
  }

  /**
   The PONG queue outlives a reconnect: with automatic reconnects there is a run in which a `FlushTimeout` returns nil
   on a connection in good order, with an orderly peer, for a byte that is on no wire at all.
   */
  lemma BarrierEndsWithReconnect(cfg: Config, b: byte) returns (s: State)
    requires cfg.autoReconn
    ensures Leads(cfg, INITIAL, s) && FlushLost(s, b) && !s.core.w.broken && s.epoch.redials == 1
  {
    hide Leads, Lost, FlushLost;
    s := LoseFlush(cfg, b);
    s := Reconnect(cfg, s);
    s := WakesTheWrongOne(cfg, s, b);
  }

  /** A raw connection outlives a failed write: the same on one connection. */
  lemma BarrierEndsOnRawConnection(cfg: Config, b: byte) returns (s: State)
    requires !cfg.sticky
    ensures Leads(cfg, INITIAL, s) && FlushLost(s, b) && s.epoch.redials == 0
  {
    hide Leads, Lost, FlushLost;
    s := LoseFlush(cfg, b);
    s := WakesTheWrongOne(cfg, s, b);
  }

  lemma NoBarrier(s: State, b: byte)
    requires FlushLost(s, b)
    ensures s.epoch.orderly && !Barrier(s)
  {
    hide Barrier;
  }

  // ---- answers from earlier connections ----

  /** Nothing of an earlier connection has disturbed the epoch or still can. */
  predicate Untroubled(s: State) { s.links.stale == 0 && s.epoch.strays == 0 && NoneEarly(s.links.early) }

  lemma UntroubledStep(s: State, cfg: Config, step: Step)
    requires Untroubled(s) && Steady(s, cfg) && !cfg.autoReconn && Enabled(s, cfg, step)
    requires step == ConnectDials ==> Settled(s)
    ensures Untroubled(Next(s, cfg, step))
  {
    hide W.Write, Forget, PeerWire, IsNext;
  }

  /** What the barrier needs of a client, kept along a settled run. */
  ghost predicate Kept(s: State, cfg: Config) { Inv(s, cfg) && Steady(s, cfg) && Untroubled(s) }

  lemma {:induction false} KeptRun(s: State, cfg: Config, steps: seq<Step>)
    requires Kept(s, cfg) && !cfg.autoReconn && SettledRun(s, cfg, steps)
    ensures Kept(After(s, cfg, steps), cfg)
    decreases |steps|
  {
    hide Inv, Steady, Untroubled, Settled, Enabled, Next;
    if steps != [] {
      InvStep(s, cfg, steps[0]);
      SteadyStep(s, cfg, steps[0]);
      UntroubledStep(s, cfg, steps[0]);
      KeptRun(Next(s, cfg, steps[0]), cfg, steps[1..]);
    }
  }

  lemma KeptInitial(cfg: Config)
    ensures Kept(INITIAL, cfg)
  {
    InvInitial(cfg);
    hide Inv;
  }

  /** Then every epoch with an orderly peer is live, as soon as there is a connection. */
  lemma KeptIsLive(s: State, cfg: Config)
    requires Kept(s, cfg) && cfg.sticky && !cfg.autoReconn && s.epoch.orderly
    ensures s.core.w.bound ==> Live(s)
    ensures Barrier(s)
  {
    StickyOf(s, cfg);
    hide Inv, Barrier, W.PlacePrefix, W.ConnInv;
    if s.core.w.bound {
      W.GoodPlaces(s.core.w);
      BarrierAt(s, cfg);
    } else {
      NobodyWaits(s);
    }
  }

  lemma StickyOf(s: State, cfg: Config)
    requires Inv(s, cfg)
    ensures W.ConnInv(s.core.w) && (s.core.w.bound ==> s.core.w.sticky == cfg.sticky)
  {
    hide Called, Aligned, PingCount, Signals, W.InOrder, W.Placed, W.ConnInv;
  }

  lemma NobodyWaits(s: State)
    requires s.waiters == []
    ensures Barrier(s)
  {
  }

  /**
   Over every settled run with an orderly peer flush is a barrier, if and only if connections sit behind a
   `timeoutWriter` and the client does not reconnect by itself.
   */
  lemma BarrierExactly(cfg: Config)
    ensures (forall steps ::
               SettledRun(INITIAL, cfg, steps) && After(INITIAL, cfg, steps).epoch.orderly ==> Barrier(After(INITIAL, cfg, steps)))
            <==> cfg.sticky && !cfg.autoReconn
  {
    if cfg.sticky && !cfg.autoReconn {
      KeptInitial(cfg);
      forall steps | SettledRun(INITIAL, cfg, steps) && After(INITIAL, cfg, steps).epoch.orderly
        ensures Barrier(After(INITIAL, cfg, steps))
      {
        KeptRun(INITIAL, cfg, steps);
        KeptIsLive(After(INITIAL, cfg, steps), cfg);
      }
    } else {
      var s: State;
      if cfg.autoReconn {
        s := BarrierEndsWithReconnect(cfg, 0);
      } else {
        s := BarrierEndsOnRawConnection(cfg, 0);
      }
      NoBarrier(s, 0);
      hide *;
      var steps := RunTo(cfg, INITIAL, s);
    }
  }

  /**
   For a single run of a client that does not reconnect by itself, on raw connections too: flush is a barrier as long as
   the last connection accepted nothing from the buffer after a write that had lost bytes.
   */
  lemma BarrierPerRun(cfg: Config, steps: seq<Step>)
    requires !cfg.autoReconn && SettledRun(INITIAL, cfg, steps) && After(INITIAL, cfg, steps).epoch.orderly
    ensures NothingAfterLoss(INITIAL, cfg, steps, true) ==> Barrier(After(INITIAL, cfg, steps))
  {
    var s := After(INITIAL, cfg, steps);
    KeptInitial(cfg);
    KeptRun(INITIAL, cfg, steps);
    WirePrefixPerRun(cfg, steps);
    hide Inv, Barrier, W.PlacePrefix, NothingAfterLoss;
    if s.core.w.bound {
      if NothingAfterLoss(INITIAL, cfg, steps, true) { BarrierAt(s, cfg); }
    } else {
      NobodyWaits(s);
    }
  }

  /** How many answers a step sends, and how many it handles or leaves where no read loop can come by. */
  function Sends(step: Step): nat { if step.PeerAnswers? || step.EarlierAnswers? then 1 else 0 }

  function Takes(s: State, step: Step): nat {
    match step
    case PongTaken => if s.epoch.owed > 0 then 1 else 0
    case LatePong => 1
    case ConnectDials | WorkerDials => if s.links.loops then 0 else s.epoch.owed
    case _ => 0
  }

  function AllSent(steps: seq<Step>): nat
    decreases |steps|
  {
    if steps == [] then 0 else Sends(steps[0]) + AllSent(steps[1..])
  }

  ghost function AllTaken(s: State, cfg: Config, steps: seq<Step>): nat
    requires Possible(s, cfg, steps)
    decreases |steps|
  {
    if steps == [] then 0 else Takes(s, steps[0]) + AllTaken(Next(s, cfg, steps[0]), cfg, steps[1..])
  }

  lemma AnswerStep(s: State, cfg: Config, step: Step)
    requires Enabled(s, cfg, step)
    ensures var t := Next(s, cfg, step);
            t.epoch.owed + t.links.stale + Takes(s, step) == s.epoch.owed + s.links.stale + Sends(step)
  {
    hide PeerWire, IsNext, Forget, W.Write, StillToCome;
  }

  lemma {:induction false} AnswersBalance(s: State, cfg: Config, steps: seq<Step>)
    requires Possible(s, cfg, steps)
    ensures var t := After(s, cfg, steps);
            t.epoch.owed + t.links.stale + AllTaken(s, cfg, steps) == s.epoch.owed + s.links.stale + AllSent(steps)
    decreases |steps|
  {
    hide Enabled, Next, Sends, Takes;
    if steps != [] {
      AnswerStep(s, cfg, steps[0]);
      AnswersBalance(Next(s, cfg, steps[0]), cfg, steps[1..]);
    }
  }

  /**
   No answer is handled twice or forgotten: over every run, the answers that peers have sent are those that were handled,
   those on their way on the current connection, and those left over from earlier ones.
   */
  lemma AnswersConserved(cfg: Config, steps: seq<Step>)
    requires Possible(INITIAL, cfg, steps)
    ensures var s := After(INITIAL, cfg, steps);
            AllSent(steps) == AllTaken(INITIAL, cfg, steps) + s.epoch.owed + s.links.stale
  {
    AnswersBalance(INITIAL, cfg, steps);
  }

  /**
   Closing a connection cuts off its peer: after `close` has closed the current connection, no unanswered PING of it counts
   at the next dial; and once an earlier connection is closed, no more answers can come from it.
   */
  lemma ClosedIsSilent(s: State, cfg: Config, i: nat)
    requires i < |s.links.closing|
    ensures Enabled(s, cfg, ConnClosed(i))
    ensures var c, t := s.links.closing[i], Next(s, cfg, ConnClosed(i));
            && (c >= |s.links.early| ==> StillToCome(t) == 0 && forall k :: !Enabled(t, cfg, PeerAnswers(k)))
            && (c < |s.links.early| ==> !Enabled(t, cfg, EarlierAnswers(c)))
            && t.core == s.core && t.epoch == s.epoch && t.links.stale == s.links.stale
  {
    hide PeerWire, IsNext, Unanswered;
  }

  /** A new epoch on a connection in good order. */
  predicate Begun(s: State) {
    var w := s.core.w;
    && s.lock == Binding && s.core.pongs == []
    && w.bound && w.plain && w.pending.None? && !w.broken && w.bufs == [] && w.start == |w.wires| && w.base == |w.appended|
    && s.epoch == Epoch(|s.waiters|, |w.appended|, 0, [], [], 0, 0, 0, 0, true, 0)
  }

  /** The same, while an answer from an earlier connection is still to be handled. */
  predicate Threatened(s: State) { Begun(s) && s.links.stale > 0 }

  /** A `FlushTimeout` has returned nil with an orderly peer on a connection in good order, and was no barrier. */
  ghost predicate BarrierBroken(s: State) {
    && s.epoch.orderly && !Barrier(s) && s.epoch.redials == 0 && s.core.w.plain && !s.core.w.broken
  }

  /** The first `FlushTimeout` of the epoch sends its PING, all of which arrives. */
  lemma FirstFlush(cfg: Config, s: State) returns (t: State)
    requires Threatened(s)
    ensures Leads(cfg, s, t) && t.lock == Free && t.inflight == s.inflight && t.links.stale == s.links.stale
    ensures t.core.pongs == [Some(|s.waiters|)] && t.waiters == s.waiters + [Waiter(|s.core.w.appended|, 0, 0, false, Waiting)]
    ensures t.epoch == s.epoch.(marks := [|s.core.w.appended| + |cfg.ping|])
    ensures var w := t.core.w; w.plain && !w.broken && w.start <= |w.wires| && |w.appended| == |s.core.w.appended| + |cfg.ping|
  {
    hide Leads, PeerWire, IsNext, W.Write, W.Cells;
    Start(cfg, s);
    t := Go(cfg, s, s, ConnectInit(true));
    t := Go(cfg, s, t, FlushBegins);
    assert t.core.pongs == [Some(|s.waiters|)] && t.lock == Pinging;
    t := Go(cfg, s, t, PingAppended);
    assert [] + cfg.ping == cfg.ping;
    assert t.core.w == s.core.w.(bufs := cfg.ping, appended := s.core.w.appended + cfg.ping) && t.lock == Pinged;
    AllWritten(t.core.w, cfg.ping);
    t := Go(cfg, s, t, PingFlushed(W.Net(|cfg.ping|, true)));
  }

  lemma AllWritten(w: W.WState, data: seq<byte>)
    requires !w.broken && w.start <= |w.wires|
    ensures var t := W.Write(w, data, true, W.Net(|data|, true));
            t == w.(wires := t.wires, handed := t.handed) && t.start <= |t.wires|
  {
  }

  /** The late answer takes the new waiter off the queue and wakes it, before the peer has read anything. */
  lemma LateAnswer(cfg: Config, s: State) returns (t: State)
    requires Threatened(s)
    ensures Leads(cfg, s, t) && BarrierBroken(t)
  {
    hide Leads, PeerWire, IsNext, Barrier, Threatened;
    t := FirstFlush(cfg, s);
    var n, f := |s.waiters|, s.inflight;
    ThreatenedEpoch(s);
    t := Go(cfg, s, t, LatePong);
    assert t.inflight == f + [n] && t.waiters[n].phase == Waiting && t.waiters[n].ping == 0;
    t := Go(cfg, s, t, Signal(|f|));
    assert t.waiters[n].sends == 1 && t.waiters[n].phase == Waiting && t.waiters[n].ping == 0;
    t := Go(cfg, s, t, Wake(n));
    NothingRead(t, n);
  }

  lemma ThreatenedEpoch(s: State)
    requires Threatened(s)
    ensures s.links.stale > 0 && s.epoch == Epoch(|s.waiters|, |s.core.w.appended|, 0, [], [], 0, 0, 0, 0, true, 0)
  {
  }

  lemma NothingRead(s: State, ch: Chan)
    requires Younger(ch, s.epoch.elders, s.waiters) && s.waiters[ch].phase == WaiterPhase.Returned(true) && s.waiters[ch].ping == 0
    requires |s.epoch.marks| > 0 && s.epoch.first < s.epoch.marks[0] <= |s.core.w.appended|
    requires s.epoch.past == [] && s.epoch.got == 0
    ensures !Barrier(s)
  {
    assert s.epoch.past + PeerWire(s) == [];
    assert Received(s) == [];
    assert !BarrierFor(s, s.waiters[ch]);
  }

  /** Some settled continuation with an orderly peer breaks the barrier. */
  ghost predicate Breaks(s: State, cfg: Config) {
    exists more :: SettledRun(s, cfg, more) && After(s, cfg, more).epoch.orderly && !Barrier(After(s, cfg, more))
  }

  lemma BreaksHere(s: State, cfg: Config)
    requires Threatened(s)
    ensures Breaks(s, cfg)
  {
    var t := LateAnswer(cfg, s);
    hide Leads, Barrier;
    var more := RunTo(cfg, s, t);
  }

  /** What a dial leaves behind. */
  lemma DialLeaves(s: State, cfg: Config)
    requires Enabled(s, cfg, ConnectDials) && s.core.w.pending.None?
    ensures var t := Next(s, cfg, ConnectDials);
            Begun(t) && t.links.stale == s.links.stale + LeftOver(s) && t.links.early == s.links.early + [StillToCome(s)]
  {
    hide PeerWire, IsNext, W.Write, LeftOver, StillToCome;
  }

  /** An answer that comes from the peer of an earlier connection after the dial. */
  lemma AnswerComes(s: State, cfg: Config, c: nat)
    requires Begun(s) && c < |s.links.early| && s.links.early[c] > 0
    ensures Enabled(s, cfg, EarlierAnswers(c)) && Threatened(Next(s, cfg, EarlierAnswers(c)))
  {
    hide PeerWire, IsNext, W.Write;
  }

  lemma BreaksLater(s: State, cfg: Config, step: Step)
    requires Enabled(s, cfg, step) && step != ConnectDials && Breaks(Next(s, cfg, step), cfg)
    ensures Breaks(s, cfg)
  {
    hide Enabled, Next, Settled, Barrier;
    var t := Next(s, cfg, step);
    var more :| SettledRun(t, cfg, more) && After(t, cfg, more).epoch.orderly && !Barrier(After(t, cfg, more));
    assert ([step] + more)[1..] == more;
    assert SettledRun(s, cfg, [step] + more) && After(s, cfg, [step] + more) == After(t, cfg, more);
  }

  /** A dial that is not settled can be followed by steps that break the barrier. */
  lemma UnsettledBreaks(s: State, cfg: Config)
    requires Enabled(s, cfg, ConnectDials) && s.core.w.pending.None? && !Settled(s)
    ensures Breaks(Next(s, cfg, ConnectDials), cfg)
  {
    DialLeaves(s, cfg);
    var t := Next(s, cfg, ConnectDials);
    hide Next, Enabled, Breaks, Begun, LeftOver, StillToCome;
    if t.links.stale > 0 {
      BreaksHere(t, cfg);
    } else {
      var c := SomeEarly(s, t);
      AnswerComes(t, cfg, c);
      BreaksHere(Next(t, cfg, EarlierAnswers(c)), cfg);
      BreaksLater(t, cfg, EarlierAnswers(c));
    }
  }

  lemma SomeEarly(s: State, t: State) returns (c: nat)
    requires !Settled(s) && t.links.stale == s.links.stale + LeftOver(s) == 0 && t.links.early == s.links.early + [StillToCome(s)]
    ensures c < |t.links.early| && t.links.early[c] > 0
  {
    hide LeftOver, StillToCome;
    if StillToCome(s) > 0 {
      c := |s.links.early|;
    } else {
      c :| 0 <= c < |s.links.early| && s.links.early[c] != 0;
    }
  }

  lemma KeptNeverBreaks(s: State, cfg: Config)
    requires Kept(s, cfg) && cfg.sticky && !cfg.autoReconn
    ensures !Breaks(s, cfg)
  {
    hide Kept, Barrier;
    if Breaks(s, cfg) {
      var more :| SettledRun(s, cfg, more) && After(s, cfg, more).epoch.orderly && !Barrier(After(s, cfg, more));
      KeptRun(s, cfg, more);
      KeptIsLive(After(s, cfg, more), cfg);
      assert false;
    }
  }

  /**
   Which calls of `Connect` keep the barrier: for a client behind a `timeoutWriter` that does not reconnect by itself,
   after any run, a dial keeps it over all settled continuations with an orderly peer, if and only if every PING on the
   connections before that can still be answered has been, and every answer has been handled.
   */
  lemma DialKeepsBarrierExactly(cfg: Config, steps: seq<Step>)
    requires Possible(INITIAL, cfg, steps) && cfg.sticky && !cfg.autoReconn && After(INITIAL, cfg, steps).lock == Free
    ensures var s := After(INITIAL, cfg, steps); !Breaks(Next(s, cfg, ConnectDials), cfg) <==> Settled(s)
  {
    KeptInitial(cfg);
    InvOf(INITIAL, cfg);
    hide Inv, Breaks, Steady;
    Invariant(INITIAL, cfg, steps);
    SteadyRun(INITIAL, cfg, steps);
    DialFrom(After(INITIAL, cfg, steps), cfg);
  }

  lemma InvOf(s: State, cfg: Config)
    requires Kept(s, cfg)
    ensures Inv(s, cfg) && Steady(s, cfg)
  {
    hide Inv, Steady;
  }

  lemma DialFrom(s: State, cfg: Config)
    requires Inv(s, cfg) && Steady(s, cfg) && cfg.sticky && !cfg.autoReconn && s.lock == Free
    ensures !Breaks(Next(s, cfg, ConnectDials), cfg) <==> Settled(s)
  {
    DialPossible(s, cfg);
    hide *;
    if Settled(s) {
      SettledDial(s, cfg);
      KeptNeverBreaks(Next(s, cfg, ConnectDials), cfg);
    } else {
      UnsettledBreaks(s, cfg);
    }
  }

  lemma DialPossible(s: State, cfg: Config)
    requires Steady(s, cfg) && !cfg.autoReconn && s.lock == Free
    ensures Enabled(s, cfg, ConnectDials) && s.core.w.pending.None?
  {
    hide PeerWire, IsNext;
  }

  lemma SettledDial(s: State, cfg: Config)
    requires Inv(s, cfg) && Steady(s, cfg) && Enabled(s, cfg, ConnectDials) && Settled(s)
    ensures Kept(Next(s, cfg, ConnectDials), cfg)
  {
    hide Inv, Steady, Enabled, PeerWire, IsNext, W.Write, LeftOver, StillToCome;
    InvStep(s, cfg, ConnectDials);
    SteadyStep(s, cfg, ConnectDials);
  }

  /** What a caller can see to: with an empty PONG queue every PING was answered and every answer handled. */
  lemma EmptyQueueIsSettled(cfg: Config, steps: seq<Step>)
    requires SettledRun(INITIAL, cfg, steps) && cfg.sticky && !cfg.autoReconn && After(INITIAL, cfg, steps).epoch.orderly
    ensures After(INITIAL, cfg, steps).core.pongs == [] ==> Settled(After(INITIAL, cfg, steps))
  {
    hide *;
    KeptInitial(cfg);
    KeptRun(INITIAL, cfg, steps);
    EmptyQueueAt(After(INITIAL, cfg, steps), cfg);
  }

  lemma EmptyQueueAt(s: State, cfg: Config)
    requires Kept(s, cfg) && cfg.sticky && !cfg.autoReconn && s.epoch.orderly
    ensures s.core.pongs == [] ==> Settled(s)
  {
    hide Inv, Barrier, Live, QueueAligned, PeerBytes, Marked, StillToCome;
    KeptIsLive(s, cfg);
    if s.core.pongs == [] {
      if s.core.w.bound {
        UseInv(s, cfg);
        AlignedLength(s.core.pongs, s.inflight, s.waiters, s.epoch.elders, s.epoch.ponged, Pings(s));
      }
      AllAnswered(s);
    }
  }

  lemma AllAnswered(s: State)
    requires s.epoch.answered >= |s.epoch.marks|
    ensures StillToCome(s) == 0
  {
    assert Unanswered(s) == {};
  }

  /** A connection on which the peer has answered the one PING it has read, and nobody has handled the answer yet. */
  lemma AnswerOnItsWay(cfg: Config) returns (s: State)
    ensures Leads(cfg, INITIAL, s) && s.lock == Free && s.epoch.owed == 1 && s.core.w.bound && s.core.w.pending.None?
    ensures s.core.status == Connected && s.core.conn && s.links.open && s.links.loops && s.links.early == [0] && s.links.closing == []
  {
    hide Leads;
    s := PingOnTheWire(cfg);
    hide PeerWire, IsNext, W.Write, W.Cells;
    LengthOfCells(cfg.ping, 0);
    s := Go(cfg, INITIAL, s, PeerReads(|cfg.ping|));
    SeesFirst(s, cfg);
    s := Go(cfg, INITIAL, s, PeerAnswers(0));
  }

  lemma PingOnTheWire(cfg: Config) returns (s: State)
    ensures Leads(cfg, INITIAL, s) && s.lock == Free && s.core.w.bound && s.core.w.pending.None?
    ensures s.core.w.start == 0 && s.core.w.wires == W.Cells(cfg.ping, Some(0))
    ensures s.epoch == INITIAL.epoch.(marks := [|cfg.ping|])
    ensures s.core.status == Connected && s.core.conn && s.links.open && s.links.loops && s.links.early == [0] && s.links.closing == []
  {
    hide Leads, PeerWire, IsNext, W.Write, W.Cells;
    GoOnline(cfg);
    s := Online(cfg);
    s := Go(cfg, INITIAL, s, FlushBegins);
    s := Go(cfg, INITIAL, s, PingAppended);
    assert [] + cfg.ping == cfg.ping;
    assert s.core.w == W.Bind(W.FRESH, cfg.sticky).(bufs := cfg.ping, appended := cfg.ping) && s.lock == Pinged;
    WholeWrite(s.core.w, cfg.ping);
    s := Go(cfg, INITIAL, s, PingFlushed(W.Net(|cfg.ping|, true)));
  }

  /** The same after a `Close`, which has closed the connection. */
  lemma ClosedTooEarly(cfg: Config) returns (s: State)
    ensures Leads(cfg, INITIAL, s) && s.lock == Free && s.epoch.owed == 1 && s.core.w.pending.None?
    ensures s.core.status == Closed && !s.links.open && s.links.loops
  {
    hide Leads, PeerWire, IsNext, W.Cells;
    s := AnswerOnItsWay(cfg);
    s := Go(cfg, INITIAL, s, CloseCalled(W.DEAD));
    assert s.links.closing == [1] && s.links.early == [0];
    s := Go(cfg, INITIAL, s, ConnClosed(0));
  }

  lemma SeesFirst(s: State, cfg: Config)
    requires s.core.w.start == 0 && s.core.w.wires == W.Cells(cfg.ping, Some(0)) && s.epoch.got == |cfg.ping|
    requires s.epoch.marks == [|cfg.ping|] && s.epoch.answered == 0
    ensures IsNext(s, 0)
  {
    LengthOfCells(cfg.ping, 0);
    SameWire(s, s);
    assert PeerWire(s)[|cfg.ping| - 1].at == Some(|cfg.ping| - 1);
  }

  /** A run up to a dial, the dial, and what follows. */
  lemma AcrossDial(cfg: Config, s: State, u: State) returns (steps: seq<Step>)
    requires Leads(cfg, INITIAL, s) && Enabled(s, cfg, ConnectDials) && Leads(cfg, Next(s, cfg, ConnectDials), u)
    ensures Possible(INITIAL, cfg, steps) && After(INITIAL, cfg, steps) == u
  {
    hide Leads, Enabled, Next, Settled;
    var a := RunTo(cfg, INITIAL, s);
    var b := RunTo(cfg, Next(s, cfg, ConnectDials), u);
    Unroll(s, cfg, ConnectDials, b);
    Chain(INITIAL, cfg, a, [ConnectDials] + b);
    steps := a + ([ConnectDials] + b);
  }

  lemma LeavesLate(cfg: Config, s: State) returns (t: State)
    requires s.lock == Free && s.core.w.pending.None? && s.epoch.owed > 0 && s.links.loops
    ensures Enabled(s, cfg, ConnectDials) && t == Next(s, cfg, ConnectDials) && Threatened(t)
  {
    t := Next(s, cfg, ConnectDials);
    DialLeaves(s, cfg);
    hide Next, Begun;
  }

  /** The dial leaves a PING behind, and its answer comes at once. */
  lemma LeavesEarly(cfg: Config, s: State) returns (t: State, v: State)
    requires s.lock == Free && s.core.w.pending.None? && StillToCome(s) > 0
    ensures Enabled(s, cfg, ConnectDials) && t == Next(s, cfg, ConnectDials) && Leads(cfg, t, v) && Threatened(v)
  {
    t := Next(s, cfg, ConnectDials);
    var c := |s.links.early|;
    DialLeaves(s, cfg);
    AnswerComes(t, cfg, c);
    hide Leads, Begun, Next, Enabled, StillToCome, Threatened;
    Start(cfg, t);
    v := Go(cfg, t, t, EarlierAnswers(c));
  }

  /**
   No client has the barrier over all runs: `Close` and `Connect` while an answer is on its way, and the next
   `FlushTimeout` returns nil for a PING that the peer has not read.
   */
  lemma BarrierEndsWithLateAnswer(cfg: Config) returns (steps: seq<Step>)
    ensures Possible(INITIAL, cfg, steps) && BarrierBroken(After(INITIAL, cfg, steps))
  {
    var s := ClosedTooEarly(cfg);
    hide *;
    var t := LeavesLate(cfg, s);
    var u := LateAnswer(cfg, t);
    steps := AcrossDial(cfg, s, u);
  }

  /**
   Nor if `Connect` is called on an open connection with a PING that the peer has not answered yet: the answer comes
   after the dial, and the old read loop takes the next waiter for it.
   */
  lemma BarrierEndsOverOpenConnection(cfg: Config) returns (steps: seq<Step>)
    ensures Possible(INITIAL, cfg, steps) && BarrierBroken(After(INITIAL, cfg, steps))
  {
    var s := PingOnTheWire(cfg);
    PingStillToCome(s, cfg);
    hide *;
    var t, v := LeavesEarly(cfg, s);
    var u := LateAnswer(cfg, v);
    Join(cfg, t, v, u);
    steps := AcrossDial(cfg, s, u);
  }

  lemma PingStillToCome(s: State, cfg: Config)
    requires s.links.open && s.links.loops && s.core.w.start == 0 && s.core.w.wires == W.Cells(cfg.ping, Some(0))
    requires s.epoch.marks == [|cfg.ping|] && s.epoch.answered == 0
    ensures StillToCome(s) > 0
  {
    LengthOfCells(cfg.ping, 0);
    var last := |cfg.ping| - 1;
    assert s.core.w.wires[last].at == Some(last);
    assert 0 in Unanswered(s);
  }
}
