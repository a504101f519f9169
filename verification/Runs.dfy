/** Building runs step by step, for the results that need a run with a certain end. */
module Runs {
  import opened ClientCore
  import opened Protocol
  import W = Writer

  /** No PING on the wire of an earlier connection can still be answered. */
  predicate NoneEarly(early: seq<nat>) { forall c :: 0 <= c < |early| ==> early[c] == 0 }

  /** No answer of an earlier connection is still to come or to be handled, and a new dial would leave none behind. */
  predicate Settled(s: State) { s.links.stale + LeftOver(s) == 0 && NoneEarly(s.links.early) && StillToCome(s) == 0 }

  /** A run in which `Connect` only dials when no answers can come from the connections before. */
  ghost predicate SettledRun(s: State, cfg: Config, steps: seq<Step>)
    ensures SettledRun(s, cfg, steps) ==> Possible(s, cfg, steps)
    decreases |steps|
  {
    steps == []
    || (Enabled(s, cfg, steps[0]) && (steps[0] == ConnectDials ==> Settled(s))
        && SettledRun(Next(s, cfg, steps[0]), cfg, steps[1..]))
  }

  /** `t` is the state after some settled run from `s`. */
  ghost predicate Leads(cfg: Config, s: State, t: State) {
    exists steps :: SettledRun(s, cfg, steps) && After(s, cfg, steps) == t
  }

  lemma RunTo(cfg: Config, s: State, t: State) returns (steps: seq<Step>)
    requires Leads(cfg, s, t)
    ensures SettledRun(s, cfg, steps) && After(s, cfg, steps) == t
  {
    steps :| SettledRun(s, cfg, steps) && After(s, cfg, steps) == t;
  }

  lemma {:induction false} Extend(s: State, cfg: Config, steps: seq<Step>, x: Step)
    requires SettledRun(s, cfg, steps) && Enabled(After(s, cfg, steps), cfg, x)
    requires x == ConnectDials ==> Settled(After(s, cfg, steps))
    ensures SettledRun(s, cfg, steps + [x])
    ensures After(s, cfg, steps + [x]) == Next(After(s, cfg, steps), cfg, x)
    decreases |steps|
  {
    if steps == [] {
      assert steps + [x] == [x] && [x][1..] == [];
    } else {
      hide Enabled, Next, Settled;
      Extend(Next(s, cfg, steps[0]), cfg, steps[1..], x);
      assert (steps + [x])[1..] == steps[1..] + [x];
    }
  }

  lemma Start(cfg: Config, s: State)
    ensures Leads(cfg, s, s)
  {
    assert SettledRun(s, cfg, []) && After(s, cfg, []) == s;
  }

  lemma Go(cfg: Config, from: State, s: State, x: Step) returns (t: State)
    requires Leads(cfg, from, s) && Enabled(s, cfg, x) && (x == ConnectDials ==> Settled(s))
    ensures Leads(cfg, from, t) && t == Next(s, cfg, x)
  {
    hide Enabled, Next, Settled;
    var steps := RunTo(cfg, from, s);
    Extend(from, cfg, steps, x);
    t := Next(s, cfg, x);
  }

  lemma Unroll(s: State, cfg: Config, x: Step, rest: seq<Step>)
    requires Enabled(s, cfg, x) && Possible(Next(s, cfg, x), cfg, rest)
    ensures Possible(s, cfg, [x] + rest) && After(s, cfg, [x] + rest) == After(Next(s, cfg, x), cfg, rest)
  {
    hide Enabled, Next;
    assert ([x] + rest)[1..] == rest;
  }

  lemma Nothing(s: State, cfg: Config)
    ensures Possible(s, cfg, []) && After(s, cfg, []) == s
  {
  }

  lemma FirstStep(s: State, cfg: Config, steps: seq<Step>)
    requires Possible(s, cfg, steps) && steps != []
    ensures Enabled(s, cfg, steps[0]) && Possible(Next(s, cfg, steps[0]), cfg, steps[1..])
    ensures After(s, cfg, steps) == After(Next(s, cfg, steps[0]), cfg, steps[1..])
  {
    hide Enabled, Next;
  }

  /** Two runs, one after the other. */
  lemma {:induction false} Chain(s: State, cfg: Config, a: seq<Step>, b: seq<Step>)
    requires Possible(s, cfg, a) && Possible(After(s, cfg, a), cfg, b)
    ensures Possible(s, cfg, a + b) && After(s, cfg, a + b) == After(After(s, cfg, a), cfg, b)
    decreases |a|
  {
    hide *;
    if a == [] {
      Nothing(s, cfg);
      assert a + b == b;
    } else {
      var x, rest := a[0], a[1..];
      FirstStep(s, cfg, a);
      Chain(Next(s, cfg, x), cfg, rest, b);
      Unroll(s, cfg, x, rest + b);
      assert a + b == [x] + (rest + b);
    }
  }

  /** The same for settled runs. */
  lemma {:induction false} ChainSettled(s: State, cfg: Config, a: seq<Step>, b: seq<Step>)
    requires SettledRun(s, cfg, a) && SettledRun(After(s, cfg, a), cfg, b)
    ensures SettledRun(s, cfg, a + b)
    decreases |a|
  {
    hide *;
    if a == [] {
      Nothing(s, cfg);
      assert a + b == b;
    } else {
      var x, rest := a[0], a[1..];
      FirstSettled(s, cfg, a);
      FirstStep(s, cfg, a);
      ChainSettled(Next(s, cfg, x), cfg, rest, b);
      UnrollSettled(s, cfg, x, rest + b);
      assert a + b == [x] + (rest + b);
    }
  }

  lemma FirstSettled(s: State, cfg: Config, steps: seq<Step>)
    requires SettledRun(s, cfg, steps) && steps != []
    ensures Enabled(s, cfg, steps[0]) && (steps[0] == ConnectDials ==> Settled(s))
    ensures SettledRun(Next(s, cfg, steps[0]), cfg, steps[1..])
  {
    hide Enabled, Next, Settled;
  }

  lemma UnrollSettled(s: State, cfg: Config, x: Step, rest: seq<Step>)
    requires Enabled(s, cfg, x) && (x == ConnectDials ==> Settled(s)) && SettledRun(Next(s, cfg, x), cfg, rest)
    ensures SettledRun(s, cfg, [x] + rest)
  {
    hide Enabled, Next, Settled;
    assert ([x] + rest)[1..] == rest;
  }

  lemma Join(cfg: Config, s: State, t: State, u: State)
    requires Leads(cfg, s, t) && Leads(cfg, t, u)
    ensures Leads(cfg, s, u)
  {
    var a := RunTo(cfg, s, t);
    var b := RunTo(cfg, t, u);
    hide SettledRun, Enabled, Next;
    Chain(s, cfg, a, b);
    ChainSettled(s, cfg, a, b);
  }

  /** The client after its first `Connect`. */
  function Online(cfg: Config): State {
    INITIAL.(core := NEW_CORE.(status := Connected, conn := true, w := W.Bind(W.FRESH, cfg.sticky)),
             links := Links(0, [0], [], true, true))
  }

  lemma FirstDial(cfg: Config)
    ensures Enabled(INITIAL, cfg, ConnectDials) && Settled(INITIAL)
    ensures NextLinks(INITIAL, cfg, ConnectDials) == Links(0, [0], [], true, false)
  {
    hide Unanswered, PeerWire;
    assert LeftOver(INITIAL) == 0 && StillToCome(INITIAL) == 0;
  }

  lemma InitStarts(s: State, cfg: Config)
    requires s.lock == Binding
    ensures Enabled(s, cfg, ConnectInit(true)) && NextLinks(s, cfg, ConnectInit(true)) == s.links.(loops := true)
  {
    hide PeerWire, IsNext;
  }

  lemma GoOnline(cfg: Config)
    ensures Leads(cfg, INITIAL, Online(cfg))
  {
    FirstDial(cfg);
    hide Leads, NextLinks, Settled, PeerWire, IsNext;
    Start(cfg, INITIAL);
    var s := Go(cfg, INITIAL, INITIAL, ConnectDials);
    InitStarts(s, cfg);
    s := Go(cfg, INITIAL, s, ConnectInit(true));
    assert s == Online(cfg);
  }
}
