/**
 The client as a transition system: every interleaving of the critical sections with the steps that
 do not hold the client lock, the goroutines, the network and the peer. `Connect` may be called any number of
 times, also from several goroutines. Here are the laws of every run that need no more than that; `Reconnects`
 has those of the status, `Barriers` those of the PONG queue.
 */
module Protocol {
  import opened Prelude
  import opened ClientCore
  import W = Writer

  /** Who holds the client lock across more than one step, and how far it has got. */
  datatype Lock = Free | Pinging | Pinged | Binding | Bound | Inited | Drained

  /** A `FlushTimeout` caller: waiting, timed out, or returned with or without an answer. */
  datatype WaiterPhase = Waiting | Expired | Returned(ok: bool)

  /**
   A `FlushTimeout` call and its channel: `since` is how much was appended when it began, `ping` the number
   of its PING, `sends` how often its channel was sent to.
   */
  datatype Waiter = Waiter(since: nat, ping: nat, sends: nat, closed: bool, phase: WaiterPhase)

  /**
   What belongs to one epoch, which a successful dial of `Connect` begins with a new PONG queue. `elders` is the number
   of waiters from before it and `first` how much had been appended by then. `redials` counts the connections that
   reconnect workers made since, and `past` is what the peer read on those that are gone. `marks` says how much was
   appended up to each PING, `ponged` counts the answers that were handled. On the current wire the peer has read
   `got` bytes and is done with the PINGs below `answered`; `owed` answers are on their way back. `orderly` is whether
   every PONG handled was sent by a peer for a PING it had read, on this connection or an earlier one, and `strays`
   counts the entries that answers from earlier connections took off the queue.
   */
  datatype Epoch = Epoch(
    elders: nat, first: nat, redials: nat, past: seq<W.Cell>,
    marks: seq<nat>, ponged: nat, answered: nat, owed: nat, got: nat, orderly: bool, strays: nat)

  /**
   `failing` and `retrying` count the calls of `Connect` that are in the gaps without the lock before and after
   the close, `workers` the `doReconnect` goroutines that have neither succeeded nor quit; `inflight` are the
   channels taken off the queue by `handlePong` and not yet sent to. `unheard` counts the timer's PINGs since the
   last PONG or handshake.
   */
  datatype State = State(
    core: Core, lock: Lock, failing: nat, retrying: nat, workers: nat, waiters: seq<Waiter>, inflight: seq<Chan>,
    epoch: Epoch, unheard: nat, links: Links)

  /**
   A dial neither closes the connection before it nor waits for its read loop. `stale` counts the answers from earlier
   connections that an old read loop may still handle, and `early`, connection by connection, the PINGs on their wires
   that may still be answered. The current connection has the number `|early|`; `open` says whether it has not been
   closed, `closing` lists the connections that a `close` is about to close after its unlock, and `loops` says whether a
   read loop was ever started.
   */
  datatype Links = Links(stale: nat, early: seq<nat>, closing: seq<nat>, open: bool, loops: bool)

  const INITIAL :=
    State(NEW_CORE, Free, 0, 0, 0, [], [], Epoch(0, 0, 0, [], [], 0, 0, 0, 0, true, 0), 0, Links(0, [], [], false, false))

  /**
   `FlushBuffer` is any flush outside a PING: after an append that reached the limit, or by the flusher.
   `ReadOrPingFails` is `processOpErr`, called by the read loop or by a stale ping timer. A dial that fails
   changes nothing and is no step.
   */
  datatype Step =
    // without the client lock
    | Append(data: seq<byte>)
    | FlushBuffer(net: W.Net)
    | WriteDirect(data: seq<byte>, net: W.Net)
    // Connect
    | ConnectDials
    | ConnectInit(ok: bool)
    | ConnectCloses(net: W.Net)
    | ConnectEnds
    // PINGs
    | FlushBegins
    | TimerFires
    | PingAppended
    | PingFlushed(net: W.Net)
    | PingAbandoned
    // PONGs and waiters
    | PongTaken
    | LatePong
    | Signal(i: nat)
    | Wake(ch: Chan)
    | TimeOut(ch: Chan)
    | RemoveEntry(ch: Chan)
    // errors and close
    | ReadOrPingFails
    | CloseCalled(net: W.Net)
    | ConnClosed(i: nat)
    // doReconnect
    | WorkerQuits
    | WorkerDials
    | WorkerInit(ok: bool)
    | WorkerDrains(net: W.Net)
    | WorkerSucceeds
    // the peer
    | PeerReads(n: nat)
    | PeerAnswers(k: nat)
    | EarlierAnswers(c: nat)

  /** What the peer has read of the current wire. */
  function PeerWire(s: State): seq<W.Cell> {
    var w, n := s.core.w, s.epoch.got;
    if w.start + n <= |w.wires| then w.wires[w.start..][..n] else []
  }

  /** The bytes of the current connection that came through the buffers and were read by the peer. */
  function PeerBytes(s: State): seq<byte> { W.Buffered(PeerWire(s)) }

  /** Whether the peer has read the appended byte at place `p` on the current wire. */
  predicate PeerRead(s: State, p: int) {
    exists i :: 0 <= i < |PeerWire(s)| && PeerWire(s)[i].at == Some(p)
  }

  /** Whether the peer has read a PING, down to its last byte, on the current wire. */
  predicate Seen(s: State, k: nat)
    requires k < |s.epoch.marks|
  {
    var end: int := s.epoch.marks[k];
    PeerRead(s, end - 1)
  }

  /** The peer answers the PINGs it sees in their order and leaves none out. */
  predicate IsNext(s: State, k: nat) {
    && s.epoch.answered <= k < |s.epoch.marks| && Seen(s, k)
    && forall j :: s.epoch.answered <= j < k ==> !Seen(s, j)
  }

  /** The PINGs that are whole on the current wire and not answered yet. */
  function Unanswered(s: State): set<nat> {
    set k: nat | s.epoch.answered <= k < |s.epoch.marks| && OnWire(s, k)
  }

  predicate OnWire(s: State, k: nat)
    requires k < |s.epoch.marks|
  {
    var end: int := s.epoch.marks[k];
    exists i :: s.core.w.start <= i < |s.core.w.wires| && s.core.w.wires[i].at == Some(end - 1)
  }

  /** The answers a dial leaves to old read loops, and those its peer may still send to them. */
  function LeftOver(s: State): nat { if s.links.loops then s.epoch.owed else 0 }

  function StillToCome(s: State): nat { if s.links.loops && s.links.open then |Unanswered(s)| else 0 }

  predicate Enabled(s: State, cfg: Config, step: Step) {
    var w := s.core.w;
    match step
    case Append(_) => true
    case FlushBuffer(net) => w.pending.None? ==> w.bound && net.Fits(w.bufs)
    case WriteDirect(data, net) => w.bound && net.Fits(data)
    case ConnectDials => s.lock == Free
    case ConnectInit(_) => s.lock == Binding
    case ConnectCloses(net) => s.failing > 0 && s.lock == Free && CanClose(s.core, net)
    case ConnectEnds => s.retrying > 0 && s.lock == Free
    case FlushBegins => s.lock == Free && s.core.status != Closed && w.bound
    case TimerFires => s.lock == Free
    case PingAppended => s.lock == Pinging
    case PingFlushed(net) => s.lock == Pinged && (w.pending.None? ==> w.bound && net.Fits(w.bufs))
    case PingAbandoned => s.lock == Pinged && w.broken
    case PongTaken => s.lock == Free && s.links.loops
    case LatePong => s.lock == Free && s.links.stale > 0
    case Signal(i) => i < |s.inflight|
    case Wake(ch) => ch < |s.waiters| && s.waiters[ch].phase == Waiting && s.waiters[ch].sends > 0
    case TimeOut(ch) => ch < |s.waiters| && s.waiters[ch].phase == Waiting
    case RemoveEntry(ch) => s.lock == Free && ch < |s.waiters| && s.waiters[ch].phase == Expired
    case ReadOrPingFails => s.lock == Free
    case CloseCalled(net) => s.lock == Free && CanClose(s.core, net)
    case ConnClosed(i) => i < |s.links.closing|
    case WorkerQuits => s.workers > 0 && s.lock == Free && s.core.status == Closed
    case WorkerDials => s.workers > 0 && s.lock == Free && s.core.status != Closed
    case WorkerInit(_) => s.lock == Bound
    case WorkerDrains(net) => s.lock == Inited && (w.pending.Some? ==> net.Fits(w.pending.value))
    case WorkerSucceeds => s.lock == Drained && s.workers > 0
    case PeerReads(n) => w.start + s.epoch.got + n <= |w.wires|
    case PeerAnswers(k) => s.links.open && IsNext(s, k)
    case EarlierAnswers(c) => c < |s.links.early| && s.links.early[c] > 0
  }

  function Update(s: State, ch: Chan, x: Waiter): State
    requires ch < |s.waiters|
  {
    s.(waiters := s.waiters[ch := x])
  }

  /** The locked part of `handlePong`. */
  function Popped(s: State): State {
    var c := s.core;
    s.(core := PopPong(c), inflight := if FrontPong(c).Some? then s.inflight + [FrontPong(c).value] else s.inflight,
       unheard := 0)
  }

  /**
   What a step does to earlier connections and their answers. A dial puts a new connection in the place of the current
   one. `close` closes its connection after the unlock, unless the client was closed or has none.
   */
  function NextLinks(s: State, cfg: Config, step: Step): Links
    requires Enabled(s, cfg, step)
  {
    var l := s.links;
    match step
    case ConnectDials | WorkerDials =>
      l.(stale := l.stale + LeftOver(s), early := l.early + [StillToCome(s)], open := true)
    case ConnectInit(ok) => l.(loops := l.loops || ok)
    case WorkerInit(ok) => l.(loops := l.loops || ok)
    case ConnectCloses(_) | CloseCalled(_) =>
      if s.core.status != Closed && s.core.conn then l.(closing := l.closing + [|l.early|]) else l
    case ConnClosed(i) =>
      var c, m := l.closing[i], l.(closing := l.closing[..i] + l.closing[i + 1..]);
      if c < |l.early| then m.(early := l.early[c := 0]) else m.(open := false)
    case ReadOrPingFails => if OpErrAction(s.core, cfg) == Reconnect then l.(open := false) else l
    case LatePong => l.(stale := l.stale - 1)
    case EarlierAnswers(c) => l.(early := l.early[c := l.early[c] - 1], stale := l.stale + 1)
    case _ => l
  }

  function Next(s: State, cfg: Config, step: Step): State
    requires Enabled(s, cfg, step)
  {
    Moved(s, cfg, step).(links := NextLinks(s, cfg, step))
  }

  /** What a step does to everything else. */
  function Moved(s: State, cfg: Config, step: Step): State
    requires Enabled(s, cfg, step)
  {
    var c, e := s.core, s.epoch;
    match step
    case Append(data) => s.(core := c.(w := W.Append(c.w, data)))
    case FlushBuffer(net) => s.(core := c.(w := W.Flush(c.w, net)))
    case WriteDirect(data, net) => s.(core := c.(w := W.Direct(c.w, data, net)))
    case ConnectDials =>
      s.(core := Setup(Dial(c, cfg)), lock := Binding,
         epoch := Epoch(|s.waiters|, |c.w.appended|, 0, [], [], 0, 0, 0, 0, true, 0))
    case ConnectInit(ok) =>
      s.(core := Init(c, ok), lock := Free, failing := if ok then s.failing else s.failing + 1,
         unheard := if ok then 0 else s.unheard)
    case ConnectCloses(net) =>
      s.(core := Close(c, Disconnected, net), failing := s.failing - 1, retrying := s.retrying + 1)
    case ConnectEnds =>
      if cfg.autoReconn then s.(core := Retry(c), retrying := s.retrying - 1, workers := s.workers + 1)
      else s.(retrying := s.retrying - 1)
    case FlushBegins =>
      var waiter := Waiter(|c.w.appended|, |e.marks|, 0, false, Waiting);
      s.(core := Enqueue(c, Some(|s.waiters|)), lock := Pinging, waiters := s.waiters + [waiter])
    case TimerFires =>
      if TickAction(c, cfg) == Ping then s.(core := Enqueue(CountPing(c), None), lock := Pinging, unheard := s.unheard + 1)
      else s.(core := CountPing(c))
    case PingAppended =>
      var w := W.Append(c.w, cfg.ping);
      s.(core := c.(w := w), lock := Pinged, epoch := e.(marks := e.marks + [|w.appended|]))
    case PingFlushed(net) => s.(core := c.(w := W.Flush(c.w, net)), lock := Free)
    case PingAbandoned => s.(lock := Free)
    case PongTaken =>
      Popped(s).(epoch := if e.owed == 0 then e.(orderly := false) else e.(ponged := e.ponged + 1, owed := e.owed - 1))
    case LatePong =>
      Popped(s).(epoch := if c.pongs == [] then e else e.(strays := e.strays + 1))
    case Signal(i) =>
      var ch := s.inflight[i];
      var t := s.(inflight := s.inflight[..i] + s.inflight[i + 1..]);
      if ch < |s.waiters| then Update(t, ch, s.waiters[ch].(sends := s.waiters[ch].sends + 1)) else t
    case Wake(ch) => Update(s, ch, s.waiters[ch].(closed := true, phase := WaiterPhase.Returned(true)))
    case TimeOut(ch) => Update(s, ch, s.waiters[ch].(phase := Expired))
    case RemoveEntry(ch) =>
      Update(s, ch, s.waiters[ch].(phase := WaiterPhase.Returned(false))).(core := c.(pongs := Forget(c.pongs, ch)))
    case ReadOrPingFails =>
      s.(core := OpErr(c, cfg), workers := if OpErrAction(c, cfg) == Reconnect then s.workers + 1 else s.workers)
    case CloseCalled(net) => s.(core := Close(c, Closed, net))
    case WorkerQuits => s.(workers := s.workers - 1)
    case WorkerDials =>
      s.(core := Dial(c, cfg), lock := Bound,
         epoch := e.(redials := e.redials + 1, past := e.past + PeerWire(s), got := 0, owed := 0))
    case WorkerInit(ok) =>
      s.(core := AttemptInit(c, ok), lock := if ok then Inited else Free, unheard := if ok then 0 else s.unheard)
    case WorkerDrains(net) =>
      s.(core := AttemptFlush(c, net), lock := if W.FlushPendingFails(c.w, net) then Free else Drained)
    case WorkerSucceeds => s.(core := AttemptDone(c), lock := Free, workers := s.workers - 1)
    case PeerReads(n) => s.(epoch := e.(got := e.got + n))
    case PeerAnswers(k) => s.(epoch := e.(answered := k + 1, owed := e.owed + 1))
    case ConnClosed(_) | EarlierAnswers(_) => s
  }

  ghost predicate Possible(s: State, cfg: Config, steps: seq<Step>)
    decreases |steps|
  {
    steps == [] || (Enabled(s, cfg, steps[0]) && Possible(Next(s, cfg, steps[0]), cfg, steps[1..]))
  }

  ghost function After(s: State, cfg: Config, steps: seq<Step>): State
    requires Possible(s, cfg, steps)
    decreases |steps|
  {
    if steps == [] then s else After(Next(s, cfg, steps[0]), cfg, steps[1..])
  }

  // ---- the writer under the steps ----

  predicate Attempting(s: State) { s.lock in {Bound, Inited, Drained} }

  /**
   Whoever may write has a connection, and a reconnect attempt with a pending buffer has an empty buffer: the
   bind before it emptied it, and it stays empty while appends go to the pending buffer.
   */
  predicate Ready(s: State, cfg: Config) {
    var c := s.core;
    && (Attempting(s) ==> c.w.bound && (c.w.pending.Some? ==> c.w.bufs == []))
    && (s.lock == Binding || c.conn || c.status == Connected ==> c.w.bound)
    && (c.w.bound ==> c.w.sticky == cfg.sticky)
  }

  predicate OfConnect(step: Step) {
    step.ConnectDials? || step.ConnectInit? || step.ConnectCloses? || step.ConnectEnds?
  }

  predicate OfWorker(step: Step) {
    step.WorkerQuits? || step.WorkerDials? || step.WorkerInit? || step.WorkerDrains? || step.WorkerSucceeds?
  }

  lemma ReadyStep(s: State, cfg: Config, step: Step)
    requires Ready(s, cfg) && Enabled(s, cfg, step)
    ensures Ready(Next(s, cfg, step), cfg)
  {
    if OfConnect(step) {
      ReadyConnect(s, cfg, step);
    } else if OfWorker(step) {
      ReadyWorker(s, cfg, step);
    } else {
      ReadyOther(s, cfg, step);
    }
  }

  lemma ReadyConnect(s: State, cfg: Config, step: Step)
    requires Ready(s, cfg) && Enabled(s, cfg, step) && OfConnect(step)
    ensures Ready(Next(s, cfg, step), cfg)
  {
    hide W.Cells, Forget, PeerWire, IsNext, NextLinks;
  }

  lemma ReadyWorker(s: State, cfg: Config, step: Step)
    requires Ready(s, cfg) && Enabled(s, cfg, step) && OfWorker(step)
    ensures Ready(Next(s, cfg, step), cfg)
  {
    hide W.Cells, Forget, PeerWire, IsNext, NextLinks;
  }

  lemma ReadyOther(s: State, cfg: Config, step: Step)
    requires Ready(s, cfg) && Enabled(s, cfg, step) && !OfConnect(step) && !OfWorker(step)
    ensures Ready(Next(s, cfg, step), cfg)
  {
    hide W.Cells, Forget, PeerWire, IsNext, NextLinks;
  }

  /** The ping count is the number of timer PINGs nothing was heard of, until it passes the maximum. */
  predicate PingCount(s: State, cfg: Config) {
    s.core.pingOut >= 0 && s.unheard == Min(s.core.pingOut, Max(cfg.maxPing, 0))
  }

  lemma PingCountStep(s: State, cfg: Config, step: Step)
    requires PingCount(s, cfg) && Enabled(s, cfg, step)
    ensures PingCount(Next(s, cfg, step), cfg)
  {
    hide PeerWire, IsNext, NextLinks, Forget, W.Write, W.Cells;
  }

  /** The writer operation a step performs, if any. */
  function WriterOp(s: State, cfg: Config, step: Step): Option<W.Op>
    requires Enabled(s, cfg, step)
  {
    match step
    case Append(data) => Some(W.DoAppend(data))
    case PingAppended => Some(W.DoAppend(cfg.ping))
    case FlushBuffer(net) => Some(W.DoFlush(net))
    case PingFlushed(net) => Some(W.DoFlush(net))
    case ConnectCloses(net) => if s.core.status != Closed && s.core.conn then Some(W.DoFlush(net)) else None
    case CloseCalled(net) => if s.core.status != Closed && s.core.conn then Some(W.DoFlush(net)) else None
    case WriteDirect(data, net) => Some(W.DoDirect(data, net))
    case ConnectDials => Some(W.DoBind(cfg.sticky))
    case WorkerDials => Some(W.DoBind(cfg.sticky))
    case ConnectEnds => if cfg.autoReconn then Some(W.DoSwitch) else None
    case ReadOrPingFails => if OpErrAction(s.core, cfg) == Reconnect then Some(W.DoSwitch) else None
    case WorkerDrains(net) => Some(W.DoFlushPending(net))
    case WorkerSucceeds => Some(W.DoDone)
    case _ => None
  }

  /**
   Every step of the client moves its writer by an allowed operation or not at all. In particular a pending
   flush always finds the buffer empty, and so does the end of a pending buffer.
   */
  lemma WriterMoves(s: State, cfg: Config, step: Step)
    requires Ready(s, cfg) && Enabled(s, cfg, step)
    ensures var op := WriterOp(s, cfg, step);
            && (op.Some? ==> W.Allowed(s.core.w, op.value))
            && (op == Some(W.DoDone) && s.core.w.pending.Some? ==> s.core.w.bufs == [])
            && Next(s, cfg, step).core.w == if op.Some? then W.Apply(s.core.w, op.value) else s.core.w
  {
    DoneWhenEmpty(s, cfg, step);
    hide *;
    if OfConnect(step) {
      WriterMovesConnect(s, cfg, step);
    } else if OfWorker(step) {
      WriterMovesWorker(s, cfg, step);
    } else {
      WriterMovesOther(s, cfg, step);
    }
  }

  lemma DoneWhenEmpty(s: State, cfg: Config, step: Step)
    requires Ready(s, cfg) && Enabled(s, cfg, step)
    ensures WriterOp(s, cfg, step) == Some(W.DoDone) && s.core.w.pending.Some? ==> s.core.w.bufs == []
  {
    hide PeerWire, IsNext, NextLinks;
  }

  lemma WriterMovesConnect(s: State, cfg: Config, step: Step)
    requires Ready(s, cfg) && Enabled(s, cfg, step) && OfConnect(step)
    ensures var op := WriterOp(s, cfg, step);
            && (op.Some? ==> W.Allowed(s.core.w, op.value))
            && Next(s, cfg, step).core.w == if op.Some? then W.Apply(s.core.w, op.value) else s.core.w
  {
    hide W.Write, PeerWire, IsNext, NextLinks, Forget;
  }

  lemma WriterMovesWorker(s: State, cfg: Config, step: Step)
    requires Ready(s, cfg) && Enabled(s, cfg, step) && OfWorker(step)
    ensures var op := WriterOp(s, cfg, step);
            && (op.Some? ==> W.Allowed(s.core.w, op.value))
            && Next(s, cfg, step).core.w == if op.Some? then W.Apply(s.core.w, op.value) else s.core.w
  {
    hide W.Write, PeerWire, IsNext, NextLinks, Forget;
  }

  lemma WriterMovesOther(s: State, cfg: Config, step: Step)
    requires Ready(s, cfg) && Enabled(s, cfg, step) && !OfConnect(step) && !OfWorker(step)
    ensures var op := WriterOp(s, cfg, step);
            && (op.Some? ==> W.Allowed(s.core.w, op.value))
            && Next(s, cfg, step).core.w == if op.Some? then W.Apply(s.core.w, op.value) else s.core.w
  {
    hide W.Write, PeerWire, IsNext, NextLinks, Forget;
  }

  // ---- signals ----

  /**
   A waiter's channel is in one place at most: in the queue, with a `handlePong` that took it, or sent to.
   It is closed only by its owner, and only after the one send was received.
   */
  ghost predicate Signals(s: State) { OnePlace(s.core.pongs, s.inflight, s.waiters) }

  ghost predicate OnePlace(q: seq<Option<Chan>>, f: seq<Chan>, ws: seq<Waiter>) {
    && (forall i :: 0 <= i < |q| && q[i].Some? ==> q[i].value < |ws| && ws[q[i].value].sends == 0)
    && (forall i :: 0 <= i < |f| ==> f[i] < |ws| && ws[f[i]].sends == 0)
    && (forall i, j :: 0 <= i < j < |q| && q[i].Some? ==> q[i] != q[j])
    && (forall i, j :: 0 <= i < j < |f| ==> f[i] != f[j])
    && (forall i, j :: 0 <= i < |q| && 0 <= j < |f| ==> q[i] != Some(f[j]))
    && (forall ch :: 0 <= ch < |ws| ==> ws[ch].sends <= 1)
    && (forall ch :: 0 <= ch < |ws| ==> (ws[ch].closed <==> ws[ch].phase == WaiterPhase.Returned(true)))
    && (forall ch :: 0 <= ch < |ws| && ws[ch].closed ==> ws[ch].sends == 1)
    && (forall i :: 0 <= i < |q| && q[i].Some? ==> ws[q[i].value].phase != WaiterPhase.Returned(false))
  }

  lemma {:induction false} ForgetPointwise(pongs: seq<Option<Chan>>, ch: Chan)
    requires forall i, j :: 0 <= i < j < |pongs| && pongs[i].Some? ==> pongs[i] != pongs[j]
    ensures |Forget(pongs, ch)| == |pongs|
    ensures forall i :: 0 <= i < |pongs| ==> Forget(pongs, ch)[i] == if pongs[i] == Some(ch) then None else pongs[i]
  {
    if Some(ch) in pongs {
      var i :| 0 <= i < |pongs| && pongs[i] == Some(ch);
      ForgetAt(pongs, ch, i);
    } else {
      ForgetAbsent(pongs, ch);
    }
  }

  lemma EnqueueKeeps(q: seq<Option<Chan>>, f: seq<Chan>, ws: seq<Waiter>, waiter: Waiter)
    requires OnePlace(q, f, ws) && waiter.sends == 0 && !waiter.closed && waiter.phase == Waiting
    ensures OnePlace(q + [Some(|ws|)], f, ws + [waiter])
    ensures OnePlace(q + [None], f, ws)
  {
  }

  lemma PopKeeps(q: seq<Option<Chan>>, f: seq<Chan>, ws: seq<Waiter>)
    requires OnePlace(q, f, ws) && q != []
    ensures OnePlace(q[1..], if q[0].Some? then f + [q[0].value] else f, ws)
  {
  }

  lemma SendKeeps(q: seq<Option<Chan>>, f: seq<Chan>, ws: seq<Waiter>, i: nat)
    requires OnePlace(q, f, ws) && i < |f|
    ensures f[i] < |ws| && OnePlace(q, f[..i] + f[i + 1..], ws[f[i] := ws[f[i]].(sends := ws[f[i]].sends + 1)])
  {
    var ch, g := f[i], f[..i] + f[i + 1..];
    assert ch < |ws| && ws[ch].sends == 0;
    forall j | 0 <= j < |g| ensures g[j] != ch && g[j] in f {
      assert g[j] == if j < i then f[j] else f[j + 1];
    }
  }

  /** The owner receives the answer and closes the channel, or times out; a new queue holds nobody. */
  lemma OwnerKeeps(q: seq<Option<Chan>>, f: seq<Chan>, ws: seq<Waiter>, ch: Chan)
    requires OnePlace(q, f, ws) && ch < |ws| && ws[ch].phase == Waiting
    ensures ws[ch].sends > 0 ==> OnePlace(q, f, ws[ch := ws[ch].(closed := true, phase := WaiterPhase.Returned(true))])
    ensures OnePlace(q, f, ws[ch := ws[ch].(phase := Expired)])
  {
  }

  lemma ResetKeeps(q: seq<Option<Chan>>, f: seq<Chan>, ws: seq<Waiter>)
    requires OnePlace(q, f, ws)
    ensures OnePlace([], f, ws)
  {
  }

  lemma RemoveKeeps(q: seq<Option<Chan>>, f: seq<Chan>, ws: seq<Waiter>, ch: Chan)
    requires OnePlace(q, f, ws) && ch < |ws| && ws[ch].phase == Expired
    ensures OnePlace(Forget(q, ch), f, ws[ch := ws[ch].(phase := WaiterPhase.Returned(false))])
  {
    ForgetPointwise(q, ch);
  }

  predicate MovesWaiter(step: Step) {
    step.PongTaken? || step.LatePong? || step.Signal? || step.Wake? || step.TimeOut? || step.RemoveEntry?
  }

  lemma SignalsStep(s: State, cfg: Config, step: Step)
    requires Signals(s) && Enabled(s, cfg, step)
    ensures Signals(Next(s, cfg, step))
  {
    if MovesWaiter(step) {
      SignalsWaiters(s, cfg, step);
    } else {
      SignalsOthers(s, cfg, step);
    }
  }

  lemma SignalsWaiters(s: State, cfg: Config, step: Step)
    requires Signals(s) && Enabled(s, cfg, step) && MovesWaiter(step)
    ensures Signals(Next(s, cfg, step))
  {
    hide OnePlace, PeerWire, IsNext, NextLinks, Forget, W.Write;
    var q, f, ws := s.core.pongs, s.inflight, s.waiters;
    match step
    case Signal(i) => SendKeeps(q, f, ws, i);
    case Wake(ch) => OwnerKeeps(q, f, ws, ch);
    case TimeOut(ch) => OwnerKeeps(q, f, ws, ch);
    case RemoveEntry(ch) => RemoveKeeps(q, f, ws, ch);
    case _ => if q != [] { PopKeeps(q, f, ws); }
  }

  lemma SignalsOthers(s: State, cfg: Config, step: Step)
    requires Signals(s) && Enabled(s, cfg, step) && !MovesWaiter(step)
    ensures Signals(Next(s, cfg, step))
  {
    hide OnePlace, PeerWire, IsNext, NextLinks, Forget, W.Write;
    var q, f, ws := s.core.pongs, s.inflight, s.waiters;
    match step
    case FlushBegins => EnqueueKeeps(q, f, ws, Waiter(|s.core.w.appended|, |s.epoch.marks|, 0, false, Waiting));
    case TimerFires => EnqueueKeeps(q, f, ws, Waiter(0, 0, 0, false, Waiting));
    case ConnectDials => ResetKeeps(q, f, ws);
    case ConnectEnds => ResetKeeps(q, f, ws);
    case _ =>
  }

  // ---- every run ----

  /** What holds in every reachable state. */
  ghost predicate Sound(s: State, cfg: Config) {
    && Ready(s, cfg) && PingCount(s, cfg) && Signals(s)
    && W.InOrder(s.core.w) && W.Placed(s.core.w) && W.ConnInv(s.core.w)
  }

  lemma SoundInitial(cfg: Config)
    ensures Sound(INITIAL, cfg)
  {
    W.FreshInOrder();
  }

  lemma SoundStep(s: State, cfg: Config, step: Step)
    requires Sound(s, cfg) && Enabled(s, cfg, step)
    ensures Sound(Next(s, cfg, step), cfg)
  {
    hide Ready, PingCount, Signals, W.InOrder, W.Placed, W.ConnInv, Next, Enabled, WriterOp;
    ReadyStep(s, cfg, step);
    PingCountStep(s, cfg, step);
    SignalsStep(s, cfg, step);
    WriterMoves(s, cfg, step);
    var op := WriterOp(s, cfg, step);
    if op.Some? {
      W.StepInOrder(s.core.w, op.value);
      W.StepPlaced(s.core.w, op.value);
      W.StepConn(s.core.w, op.value);
    }
  }

  lemma {:induction false} Reachable(s: State, cfg: Config, steps: seq<Step>)
    requires Sound(s, cfg) && Possible(s, cfg, steps)
    ensures Sound(After(s, cfg, steps), cfg)
    decreases |steps|
  {
    hide Sound;
    if steps != [] {
      SoundStep(s, cfg, steps[0]);
      Reachable(Next(s, cfg, steps[0]), cfg, steps[1..]);
    }
  }

  lemma RunSound(cfg: Config, steps: seq<Step>)
    requires Possible(INITIAL, cfg, steps)
    ensures Sound(After(INITIAL, cfg, steps), cfg)
  {
    SoundInitial(cfg);
    Reachable(INITIAL, cfg, steps);
  }

  /** The ping timer never sends more than the maximum of PINGs without a PONG or a handshake in between. */
  lemma TimerPingsBounded(cfg: Config, steps: seq<Step>)
    requires Possible(INITIAL, cfg, steps)
    ensures After(INITIAL, cfg, steps).unheard <= Max(cfg.maxPing, 0)
  {
    RunSound(cfg, steps);
  }

  /**
   Reconnects and failed writes included: the buffered bytes on all wires, then the buffer, then the pending
   buffer are the appended bytes with some left out. Nothing is sent twice and nothing overtakes.
   */
  lemma AtMostOnceInOrder(cfg: Config, steps: seq<Step>)
    requires Possible(INITIAL, cfg, steps)
    ensures var w := After(INITIAL, cfg, steps).core.w; W.Subseq(W.Line(w), w.appended)
  {
    RunSound(cfg, steps);
  }

  /** The same, byte by byte: what is on a wire is the byte appended at its place, and along all wires the places increase. */
  lemma EachByteInPlace(cfg: Config, steps: seq<Step>)
    requires Possible(INITIAL, cfg, steps)
    ensures var w := After(INITIAL, cfg, steps).core.w;
            W.InPlace(w.wires, w.appended, |w.appended| - |W.Outgoing(w)|)
  {
    RunSound(cfg, steps);
  }

  /**
   One connection that no pending buffer interfered with: wire and buffer together are everything appended since
   binding until a write fails, and behind a `timeoutWriter` the wire stays a prefix after that.
   */
  lemma OneConnection(cfg: Config, steps: seq<Step>)
    requires Possible(INITIAL, cfg, steps)
    ensures var w := After(INITIAL, cfg, steps).core.w;
            && w.start <= |w.wires| && w.base <= |w.appended|
            && (w.plain && !w.broken ==> W.Buffered(W.Wire(w)) + w.bufs == w.appended[w.base..])
            && (w.plain && w.sticky ==> W.Buffered(W.Wire(w)) <= w.appended[w.base..])
            && (w.bound && w.sticky ==> W.Wire(w) <= w.handed)
  {
    RunSound(cfg, steps);
    var w := After(INITIAL, cfg, steps).core.w;
    if w.plain && w.sticky { W.StickyPrefix(w); }
    if w.plain && !w.broken { W.NothingMissing(w); }
  }

  /**
   The channel a `handlePong` is about to send to is open and its buffer of one is empty, so the send neither
   blocks nor panics; no channel is sent to twice, and none is in the queue twice.
   */
  lemma SignalsAreSafe(cfg: Config, steps: seq<Step>)
    requires Possible(INITIAL, cfg, steps)
    ensures var s := After(INITIAL, cfg, steps);
            var q := s.core.pongs;
            && (forall i :: 0 <= i < |s.inflight| ==>
                  && s.inflight[i] < |s.waiters|
                  && !s.waiters[s.inflight[i]].closed && s.waiters[s.inflight[i]].sends == 0)
            && (forall ch :: 0 <= ch < |s.waiters| ==> s.waiters[ch].sends <= 1)
            && (forall i, j :: 0 <= i < j < |q| && q[i].Some? ==> q[i] != q[j])
  {
    RunSound(cfg, steps);
  }
}
