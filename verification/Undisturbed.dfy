/**
 The calls of the client and the steps of the transition system: a call with nothing in between is the run of its
 steps. Module `Clients` proves the methods against the same functions.
 */
module Undisturbed {
  import opened Prelude
  import opened ClientCore
  import opened Protocol
  import opened Runs
  import W = Writer

  /** From the PING's append to the end of `sendPing`. */
  function PingTail(w: W.WState, cfg: Config, limit: int, atLimit: W.Net, last: W.Net): seq<Step> {
    var end := [if PingFails(w, cfg, limit, atLimit) then PingAbandoned else PingFlushed(last)];
    [PingAppended] + if Full(W.Append(w, cfg.ping), limit) then [FlushBuffer(atLimit)] + end else end
  }

  lemma PingTailRuns(s: State, cfg: Config, limit: int, atLimit: W.Net, last: W.Net)
    requires s.lock == Pinging && PingFits(s.core.w, cfg, limit, atLimit, last)
    ensures var steps := PingTail(s.core.w, cfg, limit, atLimit, last);
            && Possible(s, cfg, steps)
            && var t := After(s, cfg, steps);
               && t.lock == Free && t.waiters == s.waiters && t.workers == s.workers
               && forall c: Core, ch: Option<Chan> :: c.w == s.core.w && Enqueue(c, ch) == s.core ==>
                    t.core == PingSent(c, cfg, ch, limit, atLimit, last)
  {
    hide W.Cells, PeerWire, IsNext, NextLinks;
    var a := Next(s, cfg, PingAppended);
    var full, fails := Full(a.core.w, limit), PingFails(s.core.w, cfg, limit, atLimit);
    var b := if full then Next(a, cfg, FlushBuffer(atLimit)) else a;
    assert b.lock == Pinged && (fails ==> b.core.w.broken);
    var end := if fails then PingAbandoned else PingFlushed(last);
    assert Enabled(b, cfg, end);
    Nothing(Next(b, cfg, end), cfg);
    Unroll(b, cfg, end, []);
    assert [end] + [] == [end];
    if full { Unroll(a, cfg, FlushBuffer(atLimit), [end]); }
    Unroll(s, cfg, PingAppended, if full then [FlushBuffer(atLimit)] + [end] else [end]);
  }

  /** `sendPing` of a `FlushTimeout`. */
  lemma FlushTimeoutSteps(s: State, cfg: Config, limit: int, atLimit: W.Net, last: W.Net)
    requires Enabled(s, cfg, FlushBegins) && PingFits(s.core.w, cfg, limit, atLimit, last)
    ensures var steps := [FlushBegins] + PingTail(s.core.w, cfg, limit, atLimit, last);
            && Possible(s, cfg, steps)
            && var t := After(s, cfg, steps);
               && t.core == PingSent(s.core, cfg, Some(|s.waiters|), limit, atLimit, last)
               && t.lock == Free && t.workers == s.workers
  {
    hide PeerWire, IsNext, NextLinks, PingTail, PingSent, PingFits, W.Write;
    var t := Next(s, cfg, FlushBegins);
    assert t.core == Enqueue(s.core, Some(|s.waiters|)) && t.core.w == s.core.w && t.lock == Pinging && t.workers == s.workers;
    PingTailRuns(t, cfg, limit, atLimit, last);
    Unroll(s, cfg, FlushBegins, PingTail(s.core.w, cfg, limit, atLimit, last));
  }

  /** `processPingTimer` when it sends a PING. */
  lemma PingTimerSteps(s: State, cfg: Config, limit: int, atLimit: W.Net, last: W.Net)
    requires s.lock == Free && TickAction(s.core, cfg) == Ping && PingFits(s.core.w, cfg, limit, atLimit, last)
    ensures var steps := [TimerFires] + PingTail(s.core.w, cfg, limit, atLimit, last);
            && Possible(s, cfg, steps)
            && var t := After(s, cfg, steps);
               && t.core == PingSent(CountPing(s.core), cfg, None, limit, atLimit, last)
               && t.lock == Free && t.workers == s.workers
  {
    hide PeerWire, IsNext, NextLinks, PingTail, PingSent, PingFits, W.Write;
    var t := Next(s, cfg, TimerFires);
    assert t.core == Enqueue(CountPing(s.core), None) && t.core.w == s.core.w == CountPing(s.core).w && t.lock == Pinging
        && t.workers == s.workers;
    PingTailRuns(t, cfg, limit, atLimit, last);
    Unroll(s, cfg, TimerFires, PingTail(s.core.w, cfg, limit, atLimit, last));
  }

  /** The ping timer counts whenever the client is connected, also when it finds the connection stale. */
  lemma TimerCounts(s: State, cfg: Config)
    requires s.lock == Free
    ensures Enabled(s, cfg, TimerFires)
    ensures var t := Next(s, cfg, TimerFires);
            && t.core.status == s.core.status && t.core.w == s.core.w && t.waiters == s.waiters
            && t.core.pingOut == s.core.pingOut + (if s.core.status == Connected then 1 else 0)
            && (if s.core.status == Connected && s.core.pingOut + 1 <= cfg.maxPing
                then t.lock == Pinging && t.core.pongs == s.core.pongs + [None]
                else t.lock == Free && t.core.pongs == s.core.pongs)
  {
    hide PeerWire, IsNext, NextLinks;
  }

  /** The calls that are one step each, with the functions that `Clients` proves the methods against. */
  lemma OneStepCalls(s: State, cfg: Config, ch: Chan, net: W.Net)
    requires s.lock == Free
    ensures s.links.loops ==> Enabled(s, cfg, PongTaken) && Next(s, cfg, PongTaken).core == PopPong(s.core)
    ensures Enabled(s, cfg, ReadOrPingFails) && Next(s, cfg, ReadOrPingFails).core == OpErr(s.core, cfg)
    ensures CanClose(s.core, net) ==>
              Enabled(s, cfg, CloseCalled(net)) && Next(s, cfg, CloseCalled(net)).core == Close(s.core, Closed, net)
    ensures ch < |s.waiters| && s.waiters[ch].phase == Expired ==>
              && Enabled(s, cfg, RemoveEntry(ch))
              && Next(s, cfg, RemoveEntry(ch)).core == s.core.(pongs := Forget(s.core.pongs, ch))
  {
    hide PeerWire, IsNext, NextLinks, W.Write, Forget;
  }

  function ConnectSteps(ok: bool, net: W.Net): seq<Step> {
    [ConnectDials] + ([ConnectInit(ok)] + if ok then [] else [ConnectCloses(net)] + ([ConnectEnds] + []))
  }

  /** `Connect` after a successful dial; it starts a worker exactly if the handshake fails with automatic reconnects. */
  lemma ConnectAsSteps(s: State, cfg: Config, ok: bool, net: W.Net)
    requires s.lock == Free && s.failing == 0 && s.retrying == 0 && (!ok ==> CanClose(Init(Setup(Dial(s.core, cfg)), ok), net))
    ensures var steps := ConnectSteps(ok, net);
            && Possible(s, cfg, steps)
            && var t := After(s, cfg, steps);
               && t.core == ConnectDone(s.core, cfg, ok, net) && t.lock == Free && t.failing == 0 && t.retrying == 0
               && t.workers == s.workers + if !ok && cfg.autoReconn then 1 else 0
  {
    hide PeerWire, IsNext, NextLinks, W.Write;
    var a := Next(s, cfg, ConnectDials);
    var b := Next(a, cfg, ConnectInit(ok));
    if ok {
      Nothing(b, cfg);
      Unroll(a, cfg, ConnectInit(ok), []);
      Unroll(s, cfg, ConnectDials, [ConnectInit(ok)] + []);
    } else {
      var c := Next(b, cfg, ConnectCloses(net));
      var d := Next(c, cfg, ConnectEnds);
      Nothing(d, cfg);
      Unroll(c, cfg, ConnectEnds, []);
      Unroll(b, cfg, ConnectCloses(net), [ConnectEnds] + []);
      Unroll(a, cfg, ConnectInit(ok), [ConnectCloses(net)] + ([ConnectEnds] + []));
      Unroll(s, cfg, ConnectDials, [ConnectInit(ok)] + ([ConnectCloses(net)] + ([ConnectEnds] + [])));
    }
  }

  /** The steps of an attempt after its handshake. */
  function DrainSteps(w: W.WState, net: W.Net): seq<Step> {
    [WorkerDrains(net)] + if W.FlushPendingFails(w, net) then [] else [WorkerSucceeds] + []
  }

  lemma DrainRuns(s: State, cfg: Config, net: W.Net)
    requires s.lock == Inited && s.workers > 0 && (s.core.w.pending.Some? ==> net.Fits(s.core.w.pending.value))
    ensures var steps, fails := DrainSteps(s.core.w, net), W.FlushPendingFails(s.core.w, net);
            && Possible(s, cfg, steps)
            && var t := After(s, cfg, steps);
               && t.core == (if fails then AttemptFlush(s.core, net) else AttemptDone(AttemptFlush(s.core, net)))
               && t.lock == Free && t.workers == if fails then s.workers else s.workers - 1
  {
    hide PeerWire, IsNext, NextLinks, W.Write;
    var t := Next(s, cfg, WorkerDrains(net));
    if W.FlushPendingFails(s.core.w, net) {
      Nothing(t, cfg);
      Unroll(s, cfg, WorkerDrains(net), []);
    } else {
      Nothing(Next(t, cfg, WorkerSucceeds), cfg);
      Unroll(t, cfg, WorkerSucceeds, []);
      Unroll(s, cfg, WorkerDrains(net), [WorkerSucceeds] + []);
    }
  }

  function AttemptSteps(c: Core, cfg: Config, ok: bool, net: W.Net): seq<Step> {
    [WorkerDials] + ([WorkerInit(ok)] + if ok then DrainSteps(W.Bind(c.w, cfg.sticky), net) else [])
  }

  /** One turn of `doReconnect` after a successful dial; the worker is gone exactly if it was the last turn. */
  lemma TryReconnectAsSteps(s: State, cfg: Config, ok: bool, net: W.Net)
    requires Enabled(s, cfg, WorkerDials) && (ok && s.core.w.pending.Some? ==> net.Fits(s.core.w.pending.value))
    ensures var steps, made := AttemptSteps(s.core, cfg, ok, net), AttemptMade(s.core, cfg, ok, net);
            && Possible(s, cfg, steps)
            && var t := After(s, cfg, steps);
               t.core == made.0 && t.lock == Free && t.workers == if made.1 then s.workers - 1 else s.workers
  {
    hide PeerWire, IsNext, NextLinks, W.Write, W.FlushPending, DrainSteps;
    var a := Next(s, cfg, WorkerDials);
    var b := Next(a, cfg, WorkerInit(ok));
    assert a.core == Dial(s.core, cfg) && b.core == AttemptInit(a.core, ok) && b.workers == s.workers;
    assert b.core.w == W.Bind(s.core.w, cfg.sticky);
    if ok {
      DrainRuns(b, cfg, net);
    } else {
      Nothing(b, cfg);
    }
    var tail := if ok then DrainSteps(b.core.w, net) else [];
    hide AttemptInit, Dial, W.Bind;
    Unroll(a, cfg, WorkerInit(ok), tail);
    Unroll(s, cfg, WorkerDials, [WorkerInit(ok)] + tail);
  }
}
