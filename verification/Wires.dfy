/** When the wire of a connection is a prefix of what was appended, for a client and for a single run. */
module Wires {
  import opened Prelude
  import opened ClientCore
  import opened Protocol
  import opened Runs
  import W = Writer

  /** A run on a raw connection that leaves a hole in its wire. */
  lemma RawRunHasHole(cfg: Config) returns (s: State)
    requires !cfg.sticky
    ensures Leads(cfg, INITIAL, s) && !W.PrefixWire(s.core.w)
  {
    var b := W.Bind(W.FRESH, false);
    W.RawConnectionCanHaveHole(b);
    hide Leads, W.PrefixWire, PeerWire, IsNext, W.Write;
    GoOnline(cfg);
    s := Online(cfg);
    s := Go(cfg, INITIAL, s, Append([1, 2]));
    s := Go(cfg, INITIAL, s, FlushBuffer(W.Net(1, false)));
    s := Go(cfg, INITIAL, s, Append([3]));
    assert s.core.w.pending.None? && s.core.w.bound && s.core.w.bufs == [3];
    s := Go(cfg, INITIAL, s, FlushBuffer(W.Net(1, true)));
  }

  /**
   Over every run of a client the wire of a connection that no pending buffer interfered with is a prefix of what
   was appended since binding, if and only if connections sit behind a `timeoutWriter`.
   */
  lemma WirePrefixExactly(cfg: Config)
    ensures (forall steps :: Possible(INITIAL, cfg, steps) ==> W.PrefixWire(After(INITIAL, cfg, steps).core.w)) <==> cfg.sticky
  {
    if cfg.sticky {
      forall steps | Possible(INITIAL, cfg, steps) ensures W.PrefixWire(After(INITIAL, cfg, steps).core.w) {
        RunSound(cfg, steps);
        var s := After(INITIAL, cfg, steps);
        if s.core.w.plain { W.StickyPrefix(s.core.w); }
      }
    } else {
      var s := RawRunHasHole(cfg);
      hide *;
      var steps := RunTo(cfg, INITIAL, s);
    }
  }

  /** Whether a step leaves the wire whole: it makes a new one, or puts nothing behind bytes that were lost. */
  predicate StaysWhole(s: State, cfg: Config, step: Step, whole: bool)
    requires Enabled(s, cfg, step)
  {
    match WriterOp(s, cfg, step)
    case Some(op) => op.DoBind? || (whole && !(W.Lossy(s.core.w) && W.Arrives(s.core.w, op)))
    case None => whole
  }

  /** Whether on the last connection of a run no byte from the buffer was accepted after others had been lost. */
  ghost predicate NothingAfterLoss(s: State, cfg: Config, steps: seq<Step>, whole: bool)
    requires Possible(s, cfg, steps)
    decreases |steps|
  {
    if steps == [] then whole
    else NothingAfterLoss(Next(s, cfg, steps[0]), cfg, steps[1..], StaysWhole(s, cfg, steps[0], whole))
  }

  ghost predicate Matches(w: W.WState, whole: bool) { w.plain ==> (W.PlacePrefix(w) <==> whole) }

  lemma MatchesStep(s: State, cfg: Config, step: Step, whole: bool)
    requires Sound(s, cfg) && Enabled(s, cfg, step) && Matches(s.core.w, whole)
    ensures Matches(Next(s, cfg, step).core.w, StaysWhole(s, cfg, step, whole))
  {
    ReadyOf(s, cfg);
    WriterMoves(s, cfg, step);
    hide Next, Enabled, Sound, W.ConnInv, W.PlacePrefix, W.Lossy, W.Arrives, WriterOp, Ready;
    if WriterOp(s, cfg, step).Some? {
      var op := WriterOp(s, cfg, step).value;
      if op.DoBind? {
        W.NewWireWhole(s.core.w, op.sticky);
      } else {
        W.PlainBefore(s.core.w, op);
        if W.Apply(s.core.w, op).plain { W.PrefixStep(s.core.w, op); }
      }
    }
  }

  lemma ReadyOf(s: State, cfg: Config)
    requires Sound(s, cfg)
    ensures Ready(s, cfg) && W.ConnInv(s.core.w)
  {
    hide Ready, W.ConnInv;
  }

  lemma {:induction false} MatchesRun(s: State, cfg: Config, steps: seq<Step>, whole: bool)
    requires Sound(s, cfg) && Possible(s, cfg, steps) && Matches(s.core.w, whole)
    ensures Matches(After(s, cfg, steps).core.w, NothingAfterLoss(s, cfg, steps, whole))
    decreases |steps|
  {
    hide Sound, Enabled, Next, Matches, StaysWhole;
    if steps != [] {
      SoundStep(s, cfg, steps[0]);
      MatchesStep(s, cfg, steps[0], whole);
      MatchesRun(Next(s, cfg, steps[0]), cfg, steps[1..], StaysWhole(s, cfg, steps[0], whole));
    }
  }

  /**
   For a single run, on any connection: place by place the wire is a prefix of what was appended since binding, if and
   only if the connection accepted nothing from the buffer after a write that had lost bytes.
   */
  lemma WirePrefixPerRun(cfg: Config, steps: seq<Step>)
    requires Possible(INITIAL, cfg, steps)
    ensures var w := After(INITIAL, cfg, steps).core.w;
            w.plain ==> (W.PlacePrefix(w) <==> NothingAfterLoss(INITIAL, cfg, steps, true))
    ensures var w := After(INITIAL, cfg, steps).core.w; W.PlacePrefix(w) ==> W.PrefixWire(w)
  {
    SoundInitial(cfg);
    MatchesRun(INITIAL, cfg, steps, true);
    W.PlacesGiveBytes(After(INITIAL, cfg, steps).core.w);
    hide *;
    MatchesOf(After(INITIAL, cfg, steps).core.w, NothingAfterLoss(INITIAL, cfg, steps, true));
  }

  lemma MatchesOf(w: W.WState, whole: bool)
    requires Matches(w, whole)
    ensures w.plain ==> (W.PlacePrefix(w) <==> whole)
  {
  }

  // ---- direct writes ----

  predicate Dials(step: Step) { step.ConnectDials? || step.WorkerDials? }

  /** What was written directly since the last dial, where `before` was written before the first of these steps. */
  function DirectSince(steps: seq<Step>, before: seq<byte>): seq<byte>
    decreases |steps|
  {
    if steps == [] then before
    else DirectSince(steps[1..],
                     if Dials(steps[0]) then [] else before + if steps[0].WriteDirect? then steps[0].data else [])
  }

  lemma DirectsStep(s: State, cfg: Config, step: Step)
    requires Sound(s, cfg) && Enabled(s, cfg, step)
    ensures var w, t := s.core.w, Next(s, cfg, step).core.w;
            && (Dials(step) ==> t.handed == [])
            && (!Dials(step) ==>
                  && w.handed <= t.handed && (w.broken ==> t.broken) && (w.bound ==> t.bound)
                  && W.DirectOf(t.handed) == W.DirectOf(w.handed) + (if step.WriteDirect? then step.data else [])
                  && (step.WriteDirect? ==> t.handed == w.handed + W.Cells(step.data, None)))
  {
    ReadyOf(s, cfg);
    WriterMoves(s, cfg, step);
    OpOf(s, cfg, step);
    hide Next, Enabled, Sound, Ready, W.ConnInv, W.DirectOf, WriterOp;
    assert W.DirectOf(s.core.w.handed) + [] == W.DirectOf(s.core.w.handed);
    if WriterOp(s, cfg, step).Some? && !WriterOp(s, cfg, step).value.DoBind? {
      W.StepDirects(s.core.w, WriterOp(s, cfg, step).value);
      W.StaysBound(s.core.w, WriterOp(s, cfg, step).value);
    }
  }

  /** Which steps dial and which write directly. */
  lemma OpOf(s: State, cfg: Config, step: Step)
    requires Enabled(s, cfg, step)
    ensures var op := WriterOp(s, cfg, step);
            && (Dials(step) <==> op.Some? && op.value.DoBind?)
            && (step.WriteDirect? <==> op.Some? && op.value.DoDirect?)
            && (step.WriteDirect? ==> op.value.data == step.data)
  {
    hide PeerWire, IsNext, W.Write;
  }

  lemma {:induction false} DirectsRun(s: State, cfg: Config, steps: seq<Step>)
    requires Sound(s, cfg) && Possible(s, cfg, steps)
    ensures W.DirectOf(After(s, cfg, steps).core.w.handed) == DirectSince(steps, W.DirectOf(s.core.w.handed))
    decreases |steps|
  {
    hide Sound, Enabled, Next, W.DirectOf;
    if steps != [] {
      SoundStep(s, cfg, steps[0]);
      DirectsStep(s, cfg, steps[0]);
      NothingDirect();
      DirectsRun(Next(s, cfg, steps[0]), cfg, steps[1..]);
    }
  }

  lemma NothingDirect()
    ensures W.DirectOf([]) == []
  {
  }

  lemma {:induction false} DirectPrefix(a: seq<W.Cell>, b: seq<W.Cell>)
    requires a <= b
    ensures W.DirectOf(a) <= W.DirectOf(b)
  {
    assert b == a + b[|a|..];
    W.DirectConcat(a, b[|a|..]);
  }

  /**
   A direct write reaches the wire: until a write fails, the direct bytes of a wire are exactly those written directly
   since the dial, in order, and behind a `timeoutWriter` they stay a prefix of them.
   */
  lemma DirectsOnWire(cfg: Config, steps: seq<Step>)
    requires Possible(INITIAL, cfg, steps)
    ensures var w := After(INITIAL, cfg, steps).core.w;
            && w.start <= |w.wires|
            && (w.bound && !w.broken ==> W.DirectOf(W.Wire(w)) == DirectSince(steps, []))
            && (w.bound && w.sticky ==> W.DirectOf(W.Wire(w)) <= DirectSince(steps, []))
  {
    SoundInitial(cfg);
    NothingDirect();
    DirectsRun(INITIAL, cfg, steps);
    RunSound(cfg, steps);
    var s := After(INITIAL, cfg, steps);
    ReadyOf(s, cfg);
    hide Sound, Ready, W.DirectOf;
    if s.core.w.bound && s.core.w.sticky { DirectPrefix(W.Wire(s.core.w), s.core.w.handed); }
  }

  lemma {:induction false} HandedGrows(s: State, cfg: Config, steps: seq<Step>)
    requires Sound(s, cfg) && Possible(s, cfg, steps) && forall i :: 0 <= i < |steps| ==> !Dials(steps[i])
    ensures var w, t := s.core.w, After(s, cfg, steps).core.w;
            w.handed <= t.handed && (w.broken ==> t.broken) && (w.bound ==> t.bound)
    decreases |steps|
  {
    hide Sound, Enabled, Next;
    if steps != [] {
      SoundStep(s, cfg, steps[0]);
      DirectsStep(s, cfg, steps[0]);
      HandedGrows(Next(s, cfg, steps[0]), cfg, steps[1..]);
    }
  }

  /**
   Where a direct write stands: as long as no write has failed, right behind all that was on the wire before it, and in
   front of all that comes later.
   */
  lemma DirectWriteStands(cfg: Config, steps: seq<Step>, data: seq<byte>, net: W.Net, more: seq<Step>)
    requires Possible(INITIAL, cfg, steps) && Enabled(After(INITIAL, cfg, steps), cfg, WriteDirect(data, net))
    requires Possible(Next(After(INITIAL, cfg, steps), cfg, WriteDirect(data, net)), cfg, more)
    requires forall i :: 0 <= i < |more| ==> !Dials(more[i])
    ensures var s := After(INITIAL, cfg, steps);
            var t := After(Next(s, cfg, WriteDirect(data, net)), cfg, more);
            !t.core.w.broken ==>
              && s.core.w.start <= |s.core.w.wires| && t.core.w.start <= |t.core.w.wires|
              && W.Wire(s.core.w) + W.Cells(data, None) <= W.Wire(t.core.w)
  {
    var step := WriteDirect(data, net);
    RunSound(cfg, steps);
    var s := After(INITIAL, cfg, steps);
    NeedsConnection(s, cfg, data, net);
    hide Sound, Enabled, Next;
    var m := Next(s, cfg, step);
    SoundStep(s, cfg, step);
    DirectsStep(s, cfg, step);
    HandedGrows(m, cfg, more);
    Reachable(m, cfg, more);
    ReadyOf(s, cfg);
    ReadyOf(After(m, cfg, more), cfg);
    hide Ready, W.Cells;
  }

  lemma NeedsConnection(s: State, cfg: Config, data: seq<byte>, net: W.Net)
    requires Enabled(s, cfg, WriteDirect(data, net))
    ensures s.core.w.bound
  {
  }
}
