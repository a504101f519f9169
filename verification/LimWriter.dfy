/**
 The writer objects of the client. Every method is proved to act on the abstract state as the
 operation of module `Writer` of the same name; the laws over whole runs are proved there.
 */
module LimWriters {
  import opened Prelude
  import opened Writer

  /** A connection as an `io.Writer`: raw, or behind the `timeoutWriter` that remembers its first error. */
  class ConnWriter {
    const sticky: bool
    var err: bool
    ghost var failed: bool
    ghost var wire: seq<Cell>
    ghost var handed: seq<Cell>

    constructor (sticky: bool)
      ensures this.sticky == sticky && !Broken() && wire == [] && handed == []
    {
      this.sticky := sticky;
      err, failed, wire, handed := false, false, [], [];
    }

    /** Whether a write has failed; only the `timeoutWriter` remembers it. */
    ghost predicate Broken()
      reads this
    {
      if sticky then err else failed
    }

    /** `net` is what the network does if the write gets that far; `from` only labels the log. */
    method Write(p: seq<byte>, ghost from: Option<int>, net: Net) returns (n: nat, fails: bool)
      requires net.Fits(p)
      modifies this
      ensures fails == ((sticky && old(err)) || !net.ok)
      ensures n == if sticky && old(err) then 0 else net.n
      ensures handed == old(handed) + Cells(p, from)
      ensures wire == old(wire) + Cells(p, from)[..n]
      ensures Broken() == (old(Broken()) || !net.ok || (sticky && old(err)))
      ensures !sticky ==> err == old(err)
    {
      handed := handed + Cells(p, from);
      if sticky && err {
        assert wire + Cells(p, from)[..0] == wire;
        return 0, true;
      }
      wire := wire + Cells(p, from)[..net.n];
      if sticky {
        err := !net.ok;
      }
      failed := failed || !net.ok;
      return net.n, !net.ok;
    }
  }

  /** Appending several pieces is appending their concatenation, as long as nothing comes between. */
  lemma AppendTwice(s: WState, a: seq<byte>, b: seq<byte>)
    ensures Append(Append(s, a), b) == Append(s, a + b)
    ensures Append(s, []) == s
  {
    assert s.bufs + (a + b) == s.bufs + a + b;
    assert s.appended + (a + b) == s.appended + a + b;
    assert s.bufs + [] == s.bufs && s.appended + [] == s.appended;
    if s.pending.Some? {
      assert s.pending.value + (a + b) == s.pending.value + a + b;
      assert s.pending.value + [] == s.pending.value;
    }
  }

  class LimWriter {
    var w: ConnWriter?
    var bufs: seq<byte>
    const limit: int
    var pending: Option<seq<byte>>
    const plimit: int
    ghost var past: seq<Cell>
    ghost var appended: seq<byte>
    ghost var base: nat
    ghost var plain: bool

    ghost function State(): WState
      reads this, w
    {
      if w == null then WState(bufs, pending, false, false, false, past, |past|, [], appended, base, plain)
      else WState(bufs, pending, true, w.sticky, w.Broken(), past + w.wire, |past|, w.handed, appended, base, plain)
    }

    constructor (limit: int, plimit: int)
      ensures State() == FRESH && this.limit == limit && this.plimit == plimit
      ensures w == null && bufs == [] && pending.None? && appended == []
    {
      this.limit, this.plimit := limit, plimit;
      w, bufs, pending := null, [], None;
      past, appended, base, plain := [], [], 0, false;
    }

    /** The part of `appendBufs` under the writer's lock: each piece goes to the buffer in use. */
    method AppendLocked(pieces: seq<seq<byte>>) returns (atLimit: bool)
      modifies this
      ensures w == old(w)
      ensures State() == Append(old(State()), Flatten(pieces))
      ensures appended == old(appended) + Flatten(pieces)
      ensures if old(pending).Some? then pending == Some(old(pending).value + Flatten(pieces)) && bufs == old(bufs)
              else pending.None? && bufs == old(bufs) + Flatten(pieces)
      ensures atLimit <==> pending.None? && |bufs| >= limit
    {
      AppendTwice(State(), [], []);
      for i := 0 to |pieces|
        invariant w == old(w)
        invariant State() == Append(old(State()), Flatten(pieces[..i]))
      {
        var buf := pieces[i];
        AppendTwice(old(State()), Flatten(pieces[..i]), buf);
        assert pieces[..i + 1] == pieces[..i] + [buf];
        FlattenConcat(pieces[..i], [buf]);
        FlattenSingle(buf);
        if |buf| == 0 {
          AppendTwice(State(), [], []);
          continue;
        }
        if pending.Some? {
          pending := Some(pending.value + buf);
        } else {
          bufs := bufs + buf;
        }
        appended := appended + buf;
      }
      assert pieces[..|pieces|] == pieces;
      atLimit := pending.None? && |bufs| >= limit;
    }

    /**
     `appendBufs` without interference: the append, and a flush when the limit is reached.
     Sequential appends therefore leave fewer than `limit` bytes in the buffer.
     */
    method AppendBufs(pieces: seq<seq<byte>>, net: Net) returns (failed: bool)
      requires var s := Append(State(), Flatten(pieces));
               s.pending.None? && |s.bufs| >= limit ==> s.bound && net.Fits(s.bufs)
      modifies this, w
      ensures w == old(w)
      ensures var s := Append(old(State()), Flatten(pieces));
              var full := s.pending.None? && |s.bufs| >= limit;
              && State() == (if full then Writer.Flush(s, net) else s)
              && (failed <==> full && WriteFails(s, net))
      ensures pending.None? && limit > 0 ==> |bufs| < limit
      ensures appended == old(appended) + Flatten(pieces)
      ensures old(pending).Some? ==>
                pending == Some(old(pending).value + Flatten(pieces)) && bufs == old(bufs) && !failed
                && (w != null ==> w.wire == old(w.wire))
      ensures old(pending).None? ==>
                var all := old(bufs) + Flatten(pieces);
                && pending.None?
                && (|all| < limit ==> bufs == all && !failed && (w != null ==> w.wire == old(w.wire)))
                && (|all| >= limit ==>
                      && bufs == []
                      && w.handed == old(w.handed) + Cells(all, Some(|appended| - |all|))
                      && w.wire == old(w.wire) +
                                   if w.sticky && old(w.err) then [] else Cells(all, Some(|appended| - |all|))[..net.n])
    {
      var atLimit := AppendLocked(pieces);
      if atLimit {
        failed := Flush(net);
        return;
      }
      return false;
    }

    /** `writeDirect`: past the buffers. */
    method WriteDirect(data: seq<byte>, net: Net) returns (failed: bool)
      requires w != null && net.Fits(data)
      modifies w
      ensures State() == Direct(old(State()), data, net)
      ensures failed == WriteFails(old(State()), net)
      ensures w.handed == old(w.handed) + Cells(data, None)
      ensures w.wire == old(w.wire) + if w.sticky && old(w.err) then [] else Cells(data, None)[..net.n]
      ensures failed <==> (w.sticky && old(w.err)) || !net.ok
    {
      var n;
      n, failed := w.Write(data, None, net);
      assert past + w.wire == old(past + w.wire) + Cells(data, None)[..n];
    }

    /** `flush`: nothing while pending; otherwise one write of the buffer, which is emptied whatever comes back. */
    method Flush(net: Net) returns (failed: bool)
      requires pending.None? ==> w != null && net.Fits(bufs)
      modifies this, w
      ensures w == old(w)
      ensures State() == Writer.Flush(old(State()), net)
      ensures failed <==> old(pending).None? && WriteFails(old(State()), net)
      ensures pending == old(pending) && appended == old(appended)
      ensures old(pending).Some? ==> bufs == old(bufs) && (w != null ==> w.wire == old(w.wire) && w.handed == old(w.handed))
      ensures old(pending).None? ==>
                var cells := Cells(old(bufs), Some(|appended| - |old(bufs)|));
                && bufs == [] && w.handed == old(w.handed) + cells
                && w.wire == old(w.wire) + (if w.sticky && old(w.err) then [] else cells[..net.n])
                && (failed <==> (w.sticky && old(w.err)) || !net.ok)
    {
      if pending.Some? {
        return false;
      }
      var n;
      ghost var from := Origin(State(), bufs, true);
      n, failed := w.Write(bufs, from, net);
      assert past + w.wire == old(past + w.wire) + Cells(bufs, from)[..n];
      bufs := [];
    }

    method Buffered() returns (n: nat)
      ensures n == if pending.Some? then |pending.value| else |bufs|
    {
      if pending.Some? {
        return |pending.value|;
      }
      return |bufs|;
    }

    method SwitchToPending()
      modifies this
      ensures w == old(w) && State() == Writer.SwitchToPending(old(State()))
      ensures pending == Some([]) && bufs == old(bufs) && appended == old(appended)
    {
      pending := Some([]);
      plain := false;
    }

    /** Sends the pending buffer and empties it, even when the write was partial. */
    method FlushPendingBuffer(net: Net) returns (failed: bool)
      requires pending.Some? ==> w != null && net.Fits(pending.value)
      modifies this, w
      ensures w == old(w)
      ensures State() == FlushPending(old(State()), net)
      ensures failed <==> FlushPendingFails(old(State()), net)
      ensures bufs == old(bufs) && appended == old(appended) && pending.Some? == old(pending).Some?
      ensures old(pending).None? || old(pending).value == [] ==> pending == old(pending) && !failed && (w != null ==> w.wire == old(w.wire))
      ensures old(pending).Some? && old(pending).value != [] ==>
                var cells := Cells(old(pending).value, Some(|appended| - |old(pending).value|));
                && pending == Some([]) && w.handed == old(w.handed) + cells
                && w.wire == old(w.wire) + (if w.sticky && old(w.err) then [] else cells[..net.n])
                && (failed <==> (w.sticky && old(w.err)) || !net.ok)
    {
      if pending.None? || |pending.value| == 0 {
        return false;
      }
      var n;
      ghost var from := Origin(State(), pending.value, true);
      n, failed := w.Write(pending.value, from, net);
      assert past + w.wire == old(past + w.wire) + Cells(pending.value, from)[..n];
      pending := Some([]);
    }

    method DoneWithPending()
      modifies this
      ensures w == old(w) && State() == Writer.DoneWithPending(old(State()))
      ensures pending.None? && bufs == old(bufs) && appended == old(appended)
    {
      pending := None;
    }

    /** The writer's half of `bindToNewConn`: a new connection, and an empty buffer. */
    method BindToNewConn(sticky: bool)
      modifies this
      ensures fresh(w) && State() == Bind(old(State()), sticky)
      ensures bufs == [] && pending == old(pending) && appended == old(appended)
      ensures w.sticky == sticky && !w.Broken() && w.wire == [] && w.handed == []
    {
      if w != null {
        past := past + w.wire;
      }
      w := new ConnWriter(sticky);
      bufs := [];
      base := |appended|;
      plain := pending.None?;
      assert past + [] == past;
    }
  }
}
