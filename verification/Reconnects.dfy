/** Status, pending buffer and reconnect workers: when they agree, and what a caller of `Connect` has to see to. */
module Reconnects {
  import opened Prelude
  import opened ClientCore
  import opened Protocol
  import W = Writer

  /**
   Whenever the client lock is free, RECONNECTING means a pending buffer and exactly one reconnect worker that
   has not succeeded, and CONNECTED means neither.
   */
  predicate Promise(s: State) {
    && s.workers <= 1
    && (s.lock == Free && s.core.status == Reconnecting ==> s.core.w.pending.Some? && s.workers == 1)
    && (s.lock == Free && s.core.status == Connected ==> s.core.w.pending.None? && s.workers == 0)
  }

  /** No pending buffer is left over and no other `Connect` is between its critical sections. */
  predicate Quiet(s: State) { s.core.w.pending.None? && s.failing == 0 && s.retrying == 0 }

  /** With automatic reconnects, `Connect` is only called when it is quiet. */
  predicate Calm(s: State, cfg: Config, step: Step) { step == ConnectDials && cfg.autoReconn ==> Quiet(s) }

  ghost predicate CalmRun(s: State, cfg: Config, steps: seq<Step>)
    ensures CalmRun(s, cfg, steps) ==> Possible(s, cfg, steps)
    decreases |steps|
  {
    steps == []
    || (Enabled(s, cfg, steps[0]) && Calm(s, cfg, steps[0]) && CalmRun(Next(s, cfg, steps[0]), cfg, steps[1..]))
  }

  /** Status, pending buffer, workers and the calls of `Connect` agree, also inside the critical sections. */
  predicate Machine(s: State, cfg: Config) {
    if cfg.autoReconn then OneWorker(s)
    else s.workers == 0 && s.core.w.pending.None? && s.core.status != Reconnecting && !Attempting(s)
  }

  predicate OneWorker(s: State) {
    var status, pending := s.core.status, s.core.w.pending.Some?;
    && s.workers <= 1 && s.failing + s.retrying <= 1
    && (s.workers == 1 ==> pending)
    && (Attempting(s) ==> s.workers == 1)
    && (pending && !Attempting(s) ==> status in {Reconnecting, Closed})
    && (pending ==> s.failing == s.retrying == 0 && s.lock != Binding)
    && (status == Reconnecting ==> s.workers == 1)
    && (s.failing + s.retrying == 1 ==> status != Connected && s.lock != Binding)
  }

  lemma MachineConnect(s: State, cfg: Config, step: Step)
    requires Machine(s, cfg) && Enabled(s, cfg, step) && Calm(s, cfg, step)
    requires OfConnect(step) || step.ReadOrPingFails? || step.CloseCalled?
    ensures Machine(Next(s, cfg, step), cfg)
  {
    hide W.Cells, Forget, PeerWire, IsNext, NextLinks;
  }

  lemma MachineWorker(s: State, cfg: Config, step: Step)
    requires Machine(s, cfg) && Enabled(s, cfg, step) && OfWorker(step)
    ensures Machine(Next(s, cfg, step), cfg)
  {
    if step.WorkerDials? || step.WorkerInit? {
      MachineAttempt(s, cfg, step);
    } else {
      hide W.Write, Forget, PeerWire, IsNext, NextLinks;
    }
  }

  lemma MachineAttempt(s: State, cfg: Config, step: Step)
    requires Machine(s, cfg) && Enabled(s, cfg, step) && (step.WorkerDials? || step.WorkerInit?)
    ensures Machine(Next(s, cfg, step), cfg)
  {
    hide W.Write, Forget, PeerWire, IsNext, NextLinks;
  }

  /** All other steps leave status, pending buffer, workers and the calls of `Connect` alone. */
  lemma MachineOther(s: State, cfg: Config, step: Step)
    requires Machine(s, cfg) && Enabled(s, cfg, step)
    requires !OfConnect(step) && !OfWorker(step) && !step.ReadOrPingFails? && !step.CloseCalled?
    ensures Machine(Next(s, cfg, step), cfg)
  {
    hide W.Cells, Forget, PeerWire, IsNext, NextLinks, Machine;
    var t := Next(s, cfg, step);
    assert t.core.status == s.core.status && t.workers == s.workers;
    assert t.failing == s.failing && t.retrying == s.retrying;
    assert t.core.w.pending.Some? == s.core.w.pending.Some?;
    assert Attempting(t) == Attempting(s) && (t.lock == Binding) == (s.lock == Binding);
    SameMachine(s, t, cfg);
  }

  lemma SameMachine(s: State, t: State, cfg: Config)
    requires Machine(s, cfg)
    requires t.core.status == s.core.status && t.workers == s.workers && t.failing == s.failing && t.retrying == s.retrying
    requires t.core.w.pending.Some? == s.core.w.pending.Some?
    requires Attempting(t) == Attempting(s) && (t.lock == Binding) == (s.lock == Binding)
    ensures Machine(t, cfg)
  {
  }

  lemma MachineStep(s: State, cfg: Config, step: Step)
    requires Machine(s, cfg) && Enabled(s, cfg, step) && Calm(s, cfg, step)
    ensures Machine(Next(s, cfg, step), cfg)
  {
    hide Machine, Next, Enabled, Calm;
    if OfConnect(step) || step.ReadOrPingFails? || step.CloseCalled? {
      MachineConnect(s, cfg, step);
    } else if OfWorker(step) {
      MachineWorker(s, cfg, step);
    } else {
      MachineOther(s, cfg, step);
    }
  }

  lemma {:induction false} MachineRun(s: State, cfg: Config, steps: seq<Step>)
    requires Machine(s, cfg) && CalmRun(s, cfg, steps)
    ensures Machine(After(s, cfg, steps), cfg)
    decreases |steps|
  {
    hide Machine, Next, Enabled, Calm;
    if steps != [] {
      MachineStep(s, cfg, steps[0]);
      MachineRun(Next(s, cfg, steps[0]), cfg, steps[1..]);
    }
  }

  /** The promise of the status, over every calm run with any number of calls of `Connect`. */
  lemma StatusPromise(cfg: Config, steps: seq<Step>)
    requires CalmRun(INITIAL, cfg, steps)
    ensures Promise(After(INITIAL, cfg, steps))
  {
    MachineRun(INITIAL, cfg, steps);
  }

  // ---- where the status goes ----

  /** The status after every step that changes it; all others keep it. */
  lemma StatusTable(s: State, cfg: Config, step: Step)
    requires Enabled(s, cfg, step)
    ensures var before, after := s.core.status, Next(s, cfg, step).core.status;
            match step
            case ConnectInit(ok) => after == if ok then Connected else Connecting
            case ConnectCloses(_) => after == Disconnected
            case ConnectEnds => after == if cfg.autoReconn then Reconnecting else before
            case CloseCalled(_) => after == Closed
            case ReadOrPingFails =>
              after == if before == Connected then (if cfg.autoReconn then Reconnecting else Disconnected) else before
            case WorkerInit(ok) => after == if ok then Connected else Reconnecting
            case WorkerDrains(net) =>
              var p := s.core.w.pending;
              after == if p.Some? && p.value != [] && ((s.core.w.sticky && s.core.w.broken) || !net.ok) then Reconnecting else before
            case WorkerSucceeds => after == Connected
            case _ => after == before
  {
    hide PeerWire, IsNext, NextLinks, Forget, W.Write;
  }

  /** An error never leaves the client CONNECTED: it reconnects if it is to do so by itself, and gives up otherwise. */
  lemma ErrorEndsConnected(s: State, cfg: Config)
    requires s.lock == Free
    ensures Enabled(s, cfg, ReadOrPingFails)
    ensures var t := Next(s, cfg, ReadOrPingFails);
            && t.core.status != Connected
            && (s.core.status == Connected && cfg.autoReconn ==>
                  t.workers == s.workers + 1 && t.core.w.pending == Some([]) && !t.links.open)
            && (s.core.status != Connected || !cfg.autoReconn ==>
                  t.workers == s.workers && t.core.w == s.core.w && t.links == s.links)
  {
    StatusTable(s, cfg, ReadOrPingFails);
    hide PeerWire, IsNext;
  }

  /** After a failed attempt the worker goes on: it can dial again at once, with the same pending buffer. */
  lemma WorkerGoesOn(s: State, cfg: Config)
    requires s.lock == Bound && s.workers > 0
    ensures Enabled(s, cfg, WorkerInit(false))
    ensures var t := Next(s, cfg, WorkerInit(false));
            t.workers == s.workers && t.core.w == s.core.w && t.core.status == Reconnecting && Enabled(t, cfg, WorkerDials)
  {
    hide PeerWire, IsNext, NextLinks;
  }

  /** A worker that finds the client closed is gone. */
  lemma WorkerLeaves(s: State, cfg: Config)
    requires s.lock == Free && s.workers > 0 && s.core.status == Closed
    ensures Enabled(s, cfg, WorkerQuits)
    ensures var t := Next(s, cfg, WorkerQuits); t.workers == s.workers - 1 && t.core == s.core && t.waiters == s.waiters
  {
    hide PeerWire, IsNext, NextLinks;
  }

  /** The tail of a failed `Connect` starts afresh: an empty PONG queue, a new pending buffer and one more worker. */
  lemma RetryStarts(s: State, cfg: Config)
    requires s.lock == Free && s.retrying > 0 && cfg.autoReconn
    ensures Enabled(s, cfg, ConnectEnds)
    ensures var t := Next(s, cfg, ConnectEnds);
            && t.core.pongs == [] && t.core.w.pending == Some([]) && t.core.status == Reconnecting
            && t.workers == s.workers + 1 && t.retrying == s.retrying - 1 && t.failing == s.failing
  {
    hide PeerWire, IsNext, NextLinks;
  }

  // ---- which runs are calm ----

  /** Nothing has been dialed yet. */
  predicate Untouched(s: State) { Quiet(s) && s.workers == 0 && s.lock == Free && s.core.status in {Disconnected, Closed} && !s.core.w.bound }

  lemma UntouchedStep(s: State, cfg: Config, step: Step)
    requires Untouched(s) && Enabled(s, cfg, step) && step != ConnectDials
    ensures Untouched(Next(s, cfg, step))
  {
    hide W.Write, Forget, PeerWire, IsNext, NextLinks;
  }

  predicate NoDial(steps: seq<Step>) { forall i :: 0 <= i < |steps| ==> steps[i] != ConnectDials }

  lemma {:induction false} NoDialIsCalm(s: State, cfg: Config, steps: seq<Step>)
    requires Possible(s, cfg, steps) && NoDial(steps)
    ensures CalmRun(s, cfg, steps)
    decreases |steps|
  {
    hide Enabled, Next;
    if steps != [] {
      NoDialIsCalm(Next(s, cfg, steps[0]), cfg, steps[1..]);
    }
  }

  /** A run with at most one successful dial of `Connect` is calm, and so is every run without automatic reconnects. */
  lemma {:induction false} CalmEnough(s: State, cfg: Config, steps: seq<Step>)
    requires Possible(s, cfg, steps)
    requires !cfg.autoReconn
             || (Untouched(s) && forall i, j :: 0 <= i < j < |steps| ==> steps[i] != ConnectDials || steps[j] != ConnectDials)
    ensures CalmRun(s, cfg, steps)
    decreases |steps|
  {
    if steps != [] {
      var rest := steps[1..];
      assert forall i :: 0 <= i < |rest| ==> rest[i] == steps[i + 1];
      if cfg.autoReconn && steps[0] == ConnectDials {
        hide Enabled, Next;
        NoDialIsCalm(Next(s, cfg, steps[0]), cfg, rest);
      } else {
        if cfg.autoReconn { UntouchedStep(s, cfg, steps[0]); }
        hide Enabled, Next, Untouched;
        CalmEnough(Next(s, cfg, steps[0]), cfg, rest);
      }
    }
  }

  // ---- the condition is needed ----

  /** Some calm continuation breaks the promise. */
  ghost predicate Breaks(s: State, cfg: Config) {
    exists more :: CalmRun(s, cfg, more) && !Promise(After(s, cfg, more))
  }

  lemma BreaksNow(s: State, cfg: Config)
    requires !Promise(s)
    ensures Breaks(s, cfg)
  {
    assert CalmRun(s, cfg, []) && After(s, cfg, []) == s;
  }

  lemma BreaksLater(s: State, cfg: Config, step: Step)
    requires Enabled(s, cfg, step) && Calm(s, cfg, step) && Breaks(Next(s, cfg, step), cfg)
    ensures Breaks(s, cfg)
  {
    hide Enabled, Next, Calm, Promise;
    var t := Next(s, cfg, step);
    var more :| CalmRun(t, cfg, more) && !Promise(After(t, cfg, more));
    assert ([step] + more)[1..] == more;
    assert CalmRun(s, cfg, [step] + more) && After(s, cfg, [step] + more) == After(t, cfg, more);
  }

  /** Two calls of `Connect` that both failed end with two workers. */
  lemma TwoWorkers(s: State, cfg: Config)
    requires cfg.autoReconn && Ready(s, cfg) && s.lock == Free && s.failing == 1 && s.retrying == 1
    ensures Breaks(s, cfg)
  {
    hide CalmRun, W.Write, PeerWire, IsNext, NextLinks, Forget, Breaks;
    var t := Next(s, cfg, ConnectEnds);
    var u := Next(t, cfg, ConnectCloses(W.DEAD));
    var v := Next(u, cfg, ConnectEnds);
    BreaksNow(v, cfg);
    BreaksLater(u, cfg, ConnectEnds);
    BreaksLater(t, cfg, ConnectCloses(W.DEAD));
    BreaksLater(s, cfg, ConnectEnds);
  }

  lemma Overlapping(s: State, cfg: Config)
    requires cfg.autoReconn && Ready(s, cfg) && s.lock == Binding && s.failing + s.retrying == 1
    ensures Breaks(s, cfg)
  {
    hide CalmRun, W.Write, PeerWire, IsNext, NextLinks, Forget, Breaks;
    ReadyStep(s, cfg, ConnectInit(false));
    var t := Next(s, cfg, ConnectInit(false));
    if t.failing == 2 {
      var u := Next(t, cfg, ConnectCloses(W.DEAD));
      ReadyStep(t, cfg, ConnectCloses(W.DEAD));
      TwoWorkers(u, cfg);
      BreaksLater(t, cfg, ConnectCloses(W.DEAD));
    } else {
      TwoWorkers(t, cfg);
    }
    BreaksLater(s, cfg, ConnectInit(false));
  }

  lemma OverPending(s: State, cfg: Config)
    requires s.lock == Binding && s.core.w.pending.Some?
    ensures Breaks(s, cfg)
  {
    hide CalmRun, Breaks;
    BreaksNow(Next(s, cfg, ConnectInit(true)), cfg);
    BreaksLater(s, cfg, ConnectInit(true));
  }

  /**
   Which calls of `Connect` keep the promise: with automatic reconnects, a call after a calm run can be followed by
   calm steps only that break it, unless it is quiet, and if it is quiet then none of them does.
   */
  lemma ConnectSafeExactly(cfg: Config, steps: seq<Step>)
    requires cfg.autoReconn && CalmRun(INITIAL, cfg, steps) && After(INITIAL, cfg, steps).lock == Free
    ensures var s := After(INITIAL, cfg, steps); !Breaks(Next(s, cfg, ConnectDials), cfg) <==> Quiet(s)
  {
    MachineInitial(cfg);
    hide *;
    MachineRun(INITIAL, cfg, steps);
    RunSound(cfg, steps);
    var s := After(INITIAL, cfg, steps);
    if Quiet(s) {
      QuietDial(s, cfg);
      MachineNeverBreaks(Next(s, cfg, ConnectDials), cfg);
    } else {
      ReadyOf(s, cfg);
      LoudDial(s, cfg);
    }
  }

  lemma MachineInitial(cfg: Config)
    ensures Machine(INITIAL, cfg)
  {
  }

  lemma QuietDial(s: State, cfg: Config)
    requires Machine(s, cfg) && s.lock == Free && Quiet(s)
    ensures Enabled(s, cfg, ConnectDials) && Machine(Next(s, cfg, ConnectDials), cfg)
  {
    hide PeerWire, IsNext;
    MachineConnect(s, cfg, ConnectDials);
    hide Machine, Next, Quiet;
  }

  lemma MachineNeverBreaks(s: State, cfg: Config)
    requires Machine(s, cfg)
    ensures !Breaks(s, cfg)
  {
    hide Machine, Promise;
    if Breaks(s, cfg) {
      var more :| CalmRun(s, cfg, more) && !Promise(After(s, cfg, more));
      MachineRun(s, cfg, more);
      PromiseOf(After(s, cfg, more), cfg);
      assert false;
    }
  }

  lemma LoudDial(s: State, cfg: Config)
    requires cfg.autoReconn && Machine(s, cfg) && Ready(s, cfg) && s.lock == Free && !Quiet(s)
    ensures Breaks(Next(s, cfg, ConnectDials), cfg)
  {
    hide Breaks, PeerWire, IsNext, NextLinks;
    ReadyStep(s, cfg, ConnectDials);
    var t := Next(s, cfg, ConnectDials);
    hide Ready;
    if s.core.w.pending.Some? {
      OverPending(t, cfg);
    } else {
      Overlapping(t, cfg);
    }
  }

  lemma PromiseOf(s: State, cfg: Config)
    requires Machine(s, cfg)
    ensures Promise(s)
  {
  }

  lemma ReadyOf(s: State, cfg: Config)
    requires Sound(s, cfg)
    ensures Ready(s, cfg)
  {
  }
}
