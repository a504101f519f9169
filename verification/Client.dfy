/** The client object: its critical sections, proved against the functions of `ClientCore`. */
module Clients {
  import opened Prelude
  import opened ClientCore
  import opened LimWriters
  import W = Writer

  class Client {
    const cfg: Config
    var status: Status
    var pongs: seq<Option<Chan>>
    var pingOut: int
    var conn: bool
    const writer: LimWriter

    ghost function View(): Core
      reads this, writer, writer.w
    {
      Core(status, pongs, pingOut, conn, writer.State())
    }

    constructor (cfg: Config, bufSize: int, reconnectBufSize: int)
      ensures View() == NEW_CORE && this.cfg == cfg && fresh(writer) && writer.limit == bufSize
      ensures status == Disconnected && pongs == [] && pingOut == 0 && !conn
    {
      this.cfg := cfg;
      status, pongs, pingOut, conn := Disconnected, [], 0, false;
      writer := new LimWriter(bufSize, reconnectBufSize);
    }

    method SetupQueue()
      modifies this`pongs
      ensures View() == Setup(old(View())) && pongs == []
    {
      pongs := [];
    }

    /**
     `sendPing` without interference: the queue entry first, then the PING frame, then a flush
     unless the append already failed.
     */
    method SendPing(ch: Option<Chan>, atLimit: W.Net, last: W.Net) returns (failed: bool)
      requires PingFits(writer.State(), cfg, writer.limit, atLimit, last)
      modifies this`pongs, writer, writer.w
      ensures failed <==> PingFails(old(writer.State()), cfg, writer.limit, atLimit)
      ensures View() == PingSent(old(View()), cfg, ch, writer.limit, atLimit, last)
      ensures pongs == old(pongs) + [ch] && writer.appended == old(writer.appended) + cfg.ping
      ensures old(writer.pending).Some? ==>
                writer.pending == Some(old(writer.pending).value + cfg.ping) && writer.bufs == old(writer.bufs) && !failed
      ensures old(writer.pending).None? ==>
                var all := old(writer.bufs) + cfg.ping;
                && writer.pending.None? && writer.bufs == []
                && writer.w.handed == old(writer.w.handed) + W.Cells(all, Some(|writer.appended| - |all|))
                && (failed ==> |all| >= writer.limit)
    {
      ghost var c := View();
      PingFacts(c, cfg, ch, writer.limit, atLimit, last);
      FlattenSingle(cfg.ping);
      hide *;
      failed := SendPingBytes(ch, atLimit, last);
    }

    method SendPingBytes(ch: Option<Chan>, atLimit: W.Net, last: W.Net) returns (failed: bool)
      requires PingFits(writer.State(), cfg, writer.limit, atLimit, last) && Flatten([cfg.ping]) == cfg.ping
      modifies this`pongs, writer, writer.w
      ensures failed <==> PingFails(old(writer.State()), cfg, writer.limit, atLimit)
      ensures View() == PingSent(old(View()), cfg, ch, writer.limit, atLimit, last)
    {
      hide W.Cells, W.Write;
      pongs := pongs + [ch];
      failed := writer.AppendBufs([cfg.ping], atLimit);
      if failed {
        return;
      }
      var _ := writer.Flush(last);
    }

    /** `removeFlushEntry`: the first entry for the channel becomes nil. */
    method RemoveFlushEntry(ch: Chan) returns (found: bool)
      modifies this`pongs
      ensures View() == old(View()).(pongs := Forget(old(pongs), ch))
      ensures found <==> Some(ch) in old(pongs)
      ensures |pongs| == |old(pongs)|
      ensures forall i :: 0 <= i < |pongs| ==>
                pongs[i] == if old(pongs)[i] == Some(ch) && Some(ch) !in old(pongs)[..i] then None else old(pongs)[i]
    {
      var i := 0;
      while i < |pongs|
        invariant 0 <= i <= |pongs|
        invariant pongs == old(pongs) && Some(ch) !in pongs[..i]
      {
        if pongs[i] == Some(ch) {
          ForgetAt(pongs, ch, i);
          pongs := pongs[i := None];
          return true;
        }
        i := i + 1;
      }
      assert pongs[..i] == pongs;
      ForgetAbsent(pongs, ch);
      return false;
    }

    /** The locked part of `handlePong`; the caller signals the returned channel after unlocking. */
    method TakePong() returns (ch: Option<Chan>)
      modifies this`pongs, this`pingOut
      ensures View() == PopPong(old(View()))
      ensures ch == FrontPong(old(View()))
      ensures pingOut == 0
      ensures old(pongs) == [] ==> pongs == [] && ch == None
      ensures old(pongs) != [] ==> old(pongs) == [ch] + pongs
    {
      ch := None;
      if |pongs| > 0 {
        ch := pongs[0];
        pongs := pongs[1..];
      }
      pingOut := 0;
    }

    /** `processPingTimer` up to the PING it may send. */
    method ProcessPingTimer() returns (action: Tick)
      modifies this`pingOut
      ensures action == TickAction(old(View()), cfg)
      ensures View() == CountPing(old(View()))
      ensures status != Connected ==> action == Idle && pingOut == old(pingOut)
      ensures status == Connected ==> pingOut == old(pingOut) + 1 && action == if pingOut > cfg.maxPing then Stale else Ping
    {
      if status != Connected {
        return Idle;
      }
      pingOut := pingOut + 1;
      if pingOut > cfg.maxPing {
        return Stale;
      }
      return Ping;
    }

    /** `processOpErr` up to its unlock; the result says whether a reconnect starts or a close follows. */
    method ProcessOpErr() returns (action: ErrAction)
      modifies this, writer
      ensures action == OpErrAction(old(View()), cfg)
      ensures View() == OpErr(old(View()), cfg)
      ensures pongs == old(pongs) && pingOut == old(pingOut) && writer.bufs == old(writer.bufs)
      ensures old(status) == Connected && cfg.autoReconn ==>
                action == Reconnect && status == Reconnecting && !conn && writer.pending == Some([])
      ensures (old(status) == Connected && !cfg.autoReconn) || old(status) == Disconnected ==>
                action == GiveUp && status == Disconnected && conn == old(conn) && writer.pending == old(writer.pending)
      ensures old(status) in {Connecting, Closed, Reconnecting} ==>
                action == Ignore && status == old(status) && conn == old(conn) && writer.pending == old(writer.pending)
    {
      if status == Connecting || status == Closed || status == Reconnecting {
        return Ignore;
      }
      if cfg.autoReconn && status == Connected {
        status := Reconnecting;
        conn := false;
        writer.SwitchToPending();
        return Reconnect;
      }
      status := Disconnected;
      return GiveUp;
    }

    method CloseWith(to: Status, net: W.Net)
      requires CanClose(View(), net)
      modifies this`status, writer, writer.w
      ensures View() == Close(old(View()), to, net)
      ensures status == to && pongs == old(pongs) && conn == old(conn) && writer.w == old(writer.w)
      ensures writer.pending == old(writer.pending) && writer.appended == old(writer.appended)
      ensures old(status) == Closed || !conn || writer.pending.Some? ==> writer.bufs == old(writer.bufs)
      ensures old(status) != Closed && conn && writer.pending.None? ==>
                var cells := W.Cells(old(writer.bufs), Some(|writer.appended| - |old(writer.bufs)|));
                && writer.bufs == [] && writer.w != null && writer.w == old(writer.w)
                && writer.w.handed == old(writer.w.handed) + cells
                && writer.w.wire == old(writer.w.wire) + if writer.w.sticky && old(writer.w.err) then [] else cells[..net.n]
    {
      hide W.Cells, W.Write;
      if status == Closed {
        status := to;
        return;
      }
      status := Closed;
      if conn {
        var _ := writer.Flush(net);
      }
      status := to;
    }

    method CreateConn()
      modifies this`conn, writer
      ensures View() == Dial(old(View()), cfg)
      ensures fresh(writer.w)
      ensures conn && writer.w.sticky == cfg.sticky && !writer.w.Broken() && writer.w.wire == [] && writer.w.handed == []
      ensures writer.bufs == [] && writer.pending == old(writer.pending) && writer.appended == old(writer.appended)
    {
      conn := true;
      writer.BindToNewConn(cfg.sticky);
    }

    method ProcessConnectInit(ok: bool)
      modifies this`status, this`pingOut
      ensures View() == Init(old(View()), ok)
      ensures status == if ok then Connected else Connecting
      ensures pingOut == if ok then 0 else old(pingOut)
    {
      status := Connecting;
      if !ok {
        return;
      }
      status := Connected;
      pingOut := 0;
    }

    /**
     `Connect` without interference. `dialed` and `ok` are what the network does, `net` what it does with
     the flush of the close; the result says whether an error is returned and a reconnect started.
     */
    method Connect(dialed: bool, ok: bool, net: W.Net) returns (failed: bool, spawn: bool)
      requires dialed && !ok && writer.pending.None? ==> net.Fits([])
      modifies this, writer, writer.w
      ensures !dialed ==> View() == old(View()) && failed && !spawn
      ensures dialed ==> View() == ConnectDone(old(View()), cfg, ok, net)
      ensures dialed && ok ==> !failed && !spawn
      ensures dialed && !ok ==> failed != cfg.autoReconn && spawn == cfg.autoReconn
      ensures dialed ==>
                && conn && pongs == [] && writer.bufs == [] && writer.appended == old(writer.appended)
                && writer.w != null && fresh(writer.w) && writer.w.sticky == cfg.sticky && writer.w.wire == []
      ensures dialed && ok ==> status == Connected && pingOut == 0 && writer.pending == old(writer.pending)
      ensures dialed && !ok && cfg.autoReconn ==> status == Reconnecting && writer.pending == Some([])
      ensures dialed && !ok && !cfg.autoReconn ==> status == Disconnected && writer.pending == old(writer.pending)
    {
      if !dialed {
        return true, false;
      }
      CreateConn();
      SetupQueue();
      ProcessConnectInit(ok);
      if ok {
        return false, false;
      }
      CloseWith(Disconnected, net);
      if cfg.autoReconn {
        SetupQueue();
        status := Reconnecting;
        writer.SwitchToPending();
        return false, true;
      }
      return true, false;
    }

    /** One turn of the loop in `doReconnect`, without interference, after the lock is taken. */
    method TryReconnect(dialed: bool, ok: bool, net: W.Net) returns (quit: bool, done: bool)
      requires status != Closed && dialed && ok && writer.pending.Some? ==> net.Fits(writer.pending.value)
      modifies this, writer, writer.w
      ensures quit == (old(status) == Closed)
      ensures quit || !dialed ==> View() == old(View()) && !done
      ensures !quit && dialed ==> (View(), done) == AttemptMade(old(View()), cfg, ok, net)
      ensures !quit && dialed ==>
                && conn && pongs == old(pongs) && writer.bufs == [] && writer.appended == old(writer.appended)
                && writer.w != null && fresh(writer.w) && writer.w.sticky == cfg.sticky
                && status == (if done then Connected else Reconnecting)
      ensures !quit && dialed && !ok ==> !done && writer.pending == old(writer.pending) && writer.w.wire == []
      ensures !quit && dialed && ok ==>
                var p := if old(writer.pending).Some? then old(writer.pending).value else [];
                && pingOut == 0 && writer.w.wire == W.Cells(p, Some(|writer.appended| - |p|))[..if p == [] then 0 else net.n]
                && (done <==> p == [] || net.ok)
                && writer.pending == if done then None else Some([])
    {
      if status == Closed {
        return true, false;
      }
      if !dialed {
        return false, false;
      }
      CreateConn();
      ProcessConnectInit(ok);
      if !ok {
        status := Reconnecting;
        return false, false;
      }
      var failed := writer.FlushPendingBuffer(net);
      if failed {
        status := Reconnecting;
        return false, false;
      }
      writer.DoneWithPending();
      status := Connected;
      return false, true;
    }
  }
}
