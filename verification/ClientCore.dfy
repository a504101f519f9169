/**
 The fields of the client that its lock protects, and what each critical section does to them,
 as functions on values. Module `Clients` proves the methods against these functions; module
 `Protocol` interleaves them.
 */
module ClientCore {
  import opened Prelude
  import opened Writer

  datatype Status = Disconnected | Connected | Closed | Reconnecting | Connecting

  /** An encoded frame has at least one byte. */
  type Encoded = f: seq<byte> | f != [] witness [0]

  /** `autoReconn`, `maxPing`, whether connections get a `timeoutWriter`, and the encoded PING frame. */
  datatype Config = Config(autoReconn: bool, maxPing: int, sticky: bool, ping: Encoded)

  /** A waiter's channel, by number. The queue holds nil for PINGs nobody waits for. */
  type Chan = nat

  datatype Core = Core(status: Status, pongs: seq<Option<Chan>>, pingOut: int, conn: bool, w: WState)

  const NEW_CORE := Core(Disconnected, [], 0, false, FRESH)

  function Setup(c: Core): Core { c.(pongs := []) }

  function Enqueue(c: Core, ch: Option<Chan>): Core { c.(pongs := c.pongs + [ch]) }

  function PopPong(c: Core): Core {
    c.(pongs := if c.pongs == [] then [] else c.pongs[1..], pingOut := 0)
  }

  function FrontPong(c: Core): Option<Chan> { if c.pongs == [] then None else c.pongs[0] }

  /** Replaces the first entry for `ch` by nil. */
  function Forget(pongs: seq<Option<Chan>>, ch: Chan): seq<Option<Chan>> {
    if pongs == [] then []
    else if pongs[0] == Some(ch) then [None] + pongs[1..]
    else [pongs[0]] + Forget(pongs[1..], ch)
  }

  lemma {:induction false} ForgetAt(pongs: seq<Option<Chan>>, ch: Chan, i: nat)
    requires i < |pongs| && pongs[i] == Some(ch) && Some(ch) !in pongs[..i]
    ensures Forget(pongs, ch) == pongs[i := None]
  {
    if i > 0 {
      assert pongs[0] in pongs[..i];
      assert pongs[..i][1..] == pongs[1..][..i - 1];
      forall x | x in pongs[1..][..i - 1] ensures x in pongs[..i] {}
      ForgetAt(pongs[1..], ch, i - 1);
    }
  }

  lemma {:induction false} ForgetAbsent(pongs: seq<Option<Chan>>, ch: Chan)
    requires Some(ch) !in pongs
    ensures Forget(pongs, ch) == pongs
  {
    if pongs != [] {
      ForgetAbsent(pongs[1..], ch);
    }
  }

  datatype Tick = Idle | Stale | Ping

  /** What the ping timer does when it fires. */
  function TickAction(c: Core, cfg: Config): Tick {
    if c.status != Connected then Idle
    else if c.pingOut + 1 > cfg.maxPing then Stale
    else Ping
  }

  function CountPing(c: Core): Core { if c.status != Connected then c else c.(pingOut := c.pingOut + 1) }

  datatype ErrAction = Ignore | Reconnect | GiveUp

  function OpErrAction(c: Core, cfg: Config): ErrAction {
    if c.status in {Connecting, Closed, Reconnecting} then Ignore
    else if cfg.autoReconn && c.status == Connected then Reconnect
    else GiveUp
  }

  function OpErr(c: Core, cfg: Config): Core {
    match OpErrAction(c, cfg)
    case Ignore => c
    case Reconnect => c.(status := Reconnecting, conn := false, w := SwitchToPending(c.w))
    case GiveUp => c.(status := Disconnected)
  }

  /** `close(status)`: flushes what is buffered when there is a connection. */
  function Close(c: Core, status: Status, net: Net): Core
    requires CanClose(c, net)
  {
    if c.status == Closed then c.(status := status)
    else c.(status := status, w := if c.conn then Flush(c.w, net) else c.w)
  }

  predicate CanClose(c: Core, net: Net) {
    c.status != Closed && c.conn && c.w.pending.None? ==> c.w.bound && net.Fits(c.w.bufs)
  }

  /** `createConn` after a successful dial. */
  function Dial(c: Core, cfg: Config): Core { c.(conn := true, w := Bind(c.w, cfg.sticky)) }

  /** `processConnectInit`: the handshake sets CONNECTED last, so a failure leaves CONNECTING. */
  function Init(c: Core, ok: bool): Core {
    if ok then c.(status := Connected, pingOut := 0) else c.(status := Connecting)
  }

  /** The tail of `Connect` after a failed handshake. */
  function Retry(c: Core): Core { Setup(c).(status := Reconnecting, w := SwitchToPending(c.w)) }

  /** A failed handshake inside `doReconnect`. */
  function AttemptInit(c: Core, ok: bool): Core {
    if ok then Init(c, true) else Init(c, false).(status := Reconnecting)
  }

  /** The pending flush inside `doReconnect`. */
  function AttemptFlush(c: Core, net: Net): Core
    requires c.w.pending.Some? ==> net.Fits(c.w.pending.value)
  {
    var sent := c.(w := FlushPending(c.w, net));
    if FlushPendingFails(c.w, net) then sent.(status := Reconnecting) else sent
  }

  function AttemptDone(c: Core): Core { c.(status := Connected, w := DoneWithPending(c.w)) }

  // ---- whole calls, when nothing comes between their critical sections ----

  /** An append that has to flush: the buffer is in use and has reached its limit. */
  predicate Full(w: WState, limit: int) { w.pending.None? && |w.bufs| >= limit }

  predicate PingFits(w: WState, cfg: Config, limit: int, atLimit: Net, last: Net) {
    var s := Append(w, cfg.ping);
    && (Full(s, limit) ==> s.bound && atLimit.Fits(s.bufs))
    && (s.pending.None? ==> s.bound && last.Fits(if Full(s, limit) then [] else s.bufs))
  }

  /** Whether the append of `sendPing` fails, so that it returns before the second flush. */
  predicate PingFails(w: WState, cfg: Config, limit: int, atLimit: Net) {
    var s := Append(w, cfg.ping); Full(s, limit) && WriteFails(s, atLimit)
  }

  /** `sendPing`: the queue entry first, then the PING frame, then a flush unless the append already failed. */
  function PingSent(c: Core, cfg: Config, ch: Option<Chan>, limit: int, atLimit: Net, last: Net): Core
    requires PingFits(c.w, cfg, limit, atLimit, last)
  {
    var s := Append(c.w, cfg.ping);
    var t := if Full(s, limit) then Flush(s, atLimit) else s;
    Enqueue(c, ch).(w := if PingFails(c.w, cfg, limit, atLimit) then t else Flush(t, last))
  }

  /** What `sendPing` does to queue and writer. */
  lemma PingFacts(c: Core, cfg: Config, ch: Option<Chan>, limit: int, atLimit: Net, last: Net)
    requires PingFits(c.w, cfg, limit, atLimit, last)
    ensures var d := PingSent(c, cfg, ch, limit, atLimit, last);
            && d.pongs == c.pongs + [ch] && d.w.appended == c.w.appended + cfg.ping
            && (c.w.pending.Some? ==>
                  && d.w.pending == Some(c.w.pending.value + cfg.ping) && d.w.bufs == c.w.bufs
                  && !PingFails(c.w, cfg, limit, atLimit))
            && (c.w.pending.None? ==>
                  var all := c.w.bufs + cfg.ping;
                  && d.w.pending.None? && d.w.bufs == []
                  && d.w.handed == c.w.handed + Cells(all, Some(|d.w.appended| - |all|))
                  && (PingFails(c.w, cfg, limit, atLimit) ==> |all| >= limit))
  {
    EmptyCells();
    hide Cells;
  }

  /** `Connect` after a successful dial. */
  function ConnectDone(c: Core, cfg: Config, ok: bool, net: Net): Core
    requires !ok ==> CanClose(Init(Setup(Dial(c, cfg)), ok), net)
  {
    var inited := Init(Setup(Dial(c, cfg)), ok);
    if ok then inited
    else
      var closed := Close(inited, Disconnected, net);
      if cfg.autoReconn then Retry(closed) else closed
  }

  /** One turn of the loop in `doReconnect` after a successful dial, and whether it was the last. */
  function AttemptMade(c: Core, cfg: Config, ok: bool, net: Net): (Core, bool)
    requires ok && c.w.pending.Some? ==> net.Fits(c.w.pending.value)
  {
    var inited := AttemptInit(Dial(c, cfg), ok);
    if !ok then (inited, false)
    else if FlushPendingFails(inited.w, net) then (AttemptFlush(inited, net), false)
    else (AttemptDone(AttemptFlush(inited, net)), true)
  }
}
