/**
 The buffered writer and the connections behind it: what is appended, what is buffered, what waits
 for a reconnect, and what has reached a wire.
 */
module Writer {
  import opened Prelude

  /**
   A byte given to a connection: `at` is its place in the log of appended bytes if it came through the buffers,
   and none if it was written directly.
   */
  datatype Cell = Cell(b: byte, at: Option<int>)

  /** What the network does with one write: `n` bytes accepted, and whether the write succeeded. */
  datatype Net = Net(n: nat, ok: bool) {
    predicate Fits(data: seq<byte>) { n <= |data| && (ok ==> n == |data|) }
  }

  /**
   The state of the writer. `wires` is the log of all connections in order, the current one from
   `start` on; `appended` is the log of appended bytes, and `base` its length when the current
   connection was bound. `handed` is what the current connection was given to write, `broken` whether
   one of its writes failed, `sticky` whether it sits behind a `timeoutWriter`, and `plain` whether
   no pending buffer has existed since it was bound.
   */
  datatype WState = WState(
    bufs: seq<byte>, pending: Option<seq<byte>>, bound: bool, sticky: bool, broken: bool,
    wires: seq<Cell>, start: nat, handed: seq<Cell>, appended: seq<byte>, base: nat, plain: bool)

  const FRESH := WState([], None, false, false, false, [], 0, [], [], 0, false)

  /** A write that fails before its first byte. */
  const DEAD := Net(0, false)

  /** `data` as cells: at places from `from` on, or direct. */
  function Cells(data: seq<byte>, from: Option<int>): seq<Cell> {
    seq(|data|, i requires 0 <= i < |data| => Cell(data[i], if from.Some? then Some(from.value + i) else None))
  }

  function BytesOf(cells: seq<Cell>): seq<byte> {
    seq(|cells|, i requires 0 <= i < |cells| => cells[i].b)
  }

  /** The cells that came through the buffers. */
  function Kept(cells: seq<Cell>): seq<Cell> {
    if cells == [] then []
    else Kept(cells[..|cells| - 1]) + if cells[|cells| - 1].at.Some? then [cells[|cells| - 1]] else []
  }

  /** The bytes of a wire that came through the buffers. */
  function Buffered(cells: seq<Cell>): seq<byte> { BytesOf(Kept(cells)) }

  lemma {:induction false} KeptConcat(a: seq<Cell>, b: seq<Cell>)
    ensures Kept(a + b) == Kept(a) + Kept(b)
  {
    if b == [] {
      assert a + b == a;
    } else {
      KeptConcat(a, b[..|b| - 1]);
      assert (a + b)[..|a + b| - 1] == a + b[..|b| - 1];
    }
  }

  lemma {:induction false} KeptCells(data: seq<byte>, from: Option<int>)
    ensures Kept(Cells(data, from)) == if from.Some? then Cells(data, from) else []
  {
    if data != [] {
      var n := |data| - 1;
      KeptCells(data[..n], from);
      assert Cells(data, from)[..n] == Cells(data[..n], from);
    }
  }

  lemma {:induction false} KeptMember(cells: seq<Cell>, c: Cell)
    ensures c in Kept(cells) <==> c in cells && c.at.Some?
  {
    if cells != [] {
      var n := |cells| - 1;
      KeptMember(cells[..n], c);
      assert cells == cells[..n] + [cells[n]];
    }
  }

  lemma BytesOfLaws(a: seq<Cell>, b: seq<Cell>, data: seq<byte>, from: Option<int>)
    ensures BytesOf(a + b) == BytesOf(a) + BytesOf(b)
    ensures BytesOf(Cells(data, from)) == data
  {
  }

  lemma BufferedConcat(a: seq<Cell>, b: seq<Cell>)
    ensures Buffered(a + b) == Buffered(a) + Buffered(b)
  {
    KeptConcat(a, b);
    BytesOfLaws(Kept(a), Kept(b), [], None);
  }

  lemma BufferedCells(data: seq<byte>, from: Option<int>)
    ensures Buffered(Cells(data, from)) == if from.Some? then data else []
  {
    KeptCells(data, from);
    BytesOfLaws([], [], data, from);
  }

  /** Cells are laid out place by place. */
  lemma CellsConcat(a: seq<byte>, b: seq<byte>, from: int)
    ensures Cells(a + b, Some(from)) == Cells(a, Some(from)) + Cells(b, Some(from + |a|))
  {
  }

  // ---- the operations on values ----

  /** Where data taken from the buffer in use comes from: each buffer ends where the log of appended bytes ends. */
  function Origin(s: WState, data: seq<byte>, buffered: bool): Option<int> {
    if buffered then Some(|s.appended| - |data|) else None
  }

  /** `w.w.Write`: a raw connection tries every write, a `timeoutWriter` none after a failure. */
  function Write(s: WState, data: seq<byte>, buffered: bool, net: Net): WState
    requires net.Fits(data)
  {
    var cells := Cells(data, Origin(s, data, buffered));
    if s.sticky && s.broken then s.(handed := s.handed + cells)
    else s.(wires := s.wires + cells[..net.n],
            handed := s.handed + cells,
            broken := s.broken || !net.ok)
  }

  /** Whether `w.w.Write` reports an error. */
  predicate WriteFails(s: WState, net: Net) { (s.sticky && s.broken) || !net.ok }

  function Append(s: WState, data: seq<byte>): WState {
    match s.pending
    case Some(p) => s.(pending := Some(p + data), appended := s.appended + data)
    case None => s.(bufs := s.bufs + data, appended := s.appended + data)
  }

  /** A flush is a write of the whole buffer, which is emptied whatever the outcome; none while pending. */
  function Flush(s: WState, net: Net): WState
    requires s.pending.None? ==> net.Fits(s.bufs)
  {
    if s.pending.Some? then s else Write(s, s.bufs, true, net).(bufs := [])
  }

  function Direct(s: WState, data: seq<byte>, net: Net): WState
    requires net.Fits(data)
  {
    Write(s, data, false, net)
  }

  function SwitchToPending(s: WState): WState { s.(pending := Some([]), plain := false) }

  function FlushPending(s: WState, net: Net): WState
    requires s.pending.Some? ==> net.Fits(s.pending.value)
  {
    if s.pending.None? || s.pending.value == [] then s
    else Write(s, s.pending.value, true, net).(pending := Some([]))
  }

  predicate FlushPendingFails(s: WState, net: Net) {
    s.pending.Some? && s.pending.value != [] && WriteFails(s, net)
  }

  function DoneWithPending(s: WState): WState { s.(pending := None) }

  function Bind(s: WState, sticky: bool): WState {
    s.(bufs := [], bound := true, sticky := sticky, broken := false, start := |s.wires|, handed := [],
       base := |s.appended|, plain := s.pending.None?)
  }

  // ---- at most once and in order ----

  /** `a` is `b` with some bytes left out: every byte of `a` has a place of its own in `b`, in order. */
  ghost predicate Subseq<T(!new)>(a: seq<T>, b: seq<T>) {
    exists f: seq<nat> :: Embeds(f, a, b)
  }

  ghost predicate Embeds<T>(f: seq<nat>, a: seq<T>, b: seq<T>) {
    && |f| == |a|
    && (forall i :: 0 <= i < |f| ==> f[i] < |b| && a[i] == b[f[i]])
    && (forall i, j :: 0 <= i < j < |f| ==> f[i] < f[j])
  }

  lemma SubseqSnoc<T(!new)>(a: seq<T>, b: seq<T>, x: seq<T>)
    requires Subseq(a, b)
    ensures Subseq(a + x, b + x)
  {
    var f :| Embeds(f, a, b);
    var g := f + seq(|x|, i => |b| + i);
    assert Embeds(g, a + x, b + x);
  }

  lemma SubseqDrop<T(!new)>(a: seq<T>, m: seq<T>, c: seq<T>, b: seq<T>)
    requires Subseq(a + m + c, b)
    ensures Subseq(a + c, b)
  {
    var f :| Embeds(f, a + m + c, b);
    var g := f[..|a|] + f[|a| + |m|..];
    assert Embeds(g, a + c, b);
  }

  /** The buffered bytes on all wires, then the buffer, then the pending buffer. */
  function Line(s: WState): seq<byte> {
    Buffered(s.wires) + s.bufs + if s.pending.Some? then s.pending.value else []
  }

  /** Nothing appended is sent twice, and nothing overtakes. */
  ghost predicate InOrder(s: WState) { Subseq(Line(s), s.appended) }

  lemma WriteLine(s: WState, data: seq<byte>, buffered: bool, net: Net)
    requires net.Fits(data)
    ensures var sent := if (s.sticky && s.broken) || !buffered then [] else data[..net.n];
            Buffered(Write(s, data, buffered, net).wires) == Buffered(s.wires) + sent
  {
    var from := Origin(s, data, buffered);
    var cells := Cells(data[..net.n], from);
    BufferedConcat(s.wires, cells);
    BufferedCells(data[..net.n], from);
    hide Buffered;
    assert Cells(data, from)[..net.n] == cells;
    assert Buffered(s.wires) + [] == Buffered(s.wires);
  }

  lemma AppendInOrder(s: WState, data: seq<byte>)
    requires InOrder(s)
    ensures InOrder(Append(s, data))
  {
    SubseqSnoc(Line(s), s.appended, data);
    hide Subseq, Buffered;
    LastPiece(Buffered(s.wires), s.bufs, [], data);
    LastPiece(Buffered(s.wires), s.bufs, if s.pending.Some? then s.pending.value else [], data);
  }

  lemma LastPiece(a: seq<byte>, b: seq<byte>, c: seq<byte>, data: seq<byte>)
    ensures a + (b + data) + [] == a + b + [] + data
    ensures a + b + (c + data) == a + b + c + data
  {
  }

  lemma FlushInOrder(s: WState, net: Net)
    requires InOrder(s) && (s.pending.None? ==> net.Fits(s.bufs))
    ensures InOrder(Flush(s, net))
  {
    if s.pending.None? {
      WriteLine(s, s.bufs, true, net);
      var sent := if s.sticky && s.broken then [] else s.bufs[..net.n];
      var lost := s.bufs[|sent|..];
      assert Line(s) == (Buffered(s.wires) + sent) + lost + [];
      SubseqDrop(Buffered(s.wires) + sent, lost, [], s.appended);
      assert Line(Flush(s, net)) == (Buffered(s.wires) + sent) + [];
    }
  }

  lemma DirectInOrder(s: WState, data: seq<byte>, net: Net)
    requires InOrder(s) && net.Fits(data)
    ensures InOrder(Direct(s, data, net)) && Line(Direct(s, data, net)) == Line(s)
  {
    WriteLine(s, data, false, net);
    assert Buffered(s.wires) + [] == Buffered(s.wires);
    assert Line(Direct(s, data, net)) == Line(s);
  }

  lemma SwitchInOrder(s: WState)
    requires InOrder(s)
    ensures InOrder(SwitchToPending(s)) && InOrder(DoneWithPending(s))
  {
    var kept := Buffered(s.wires) + s.bufs;
    var p := if s.pending.Some? then s.pending.value else [];
    assert Line(s) == kept + p + [];
    SubseqDrop(kept, p, [], s.appended);
    assert Line(SwitchToPending(s)) == kept + [] && Line(DoneWithPending(s)) == kept + [];
  }

  lemma BindInOrder(s: WState, sticky: bool)
    requires InOrder(s)
    ensures InOrder(Bind(s, sticky))
  {
    var p := if s.pending.Some? then s.pending.value else [];
    SubseqDrop(Buffered(s.wires), s.bufs, p, s.appended);
    assert Buffered(s.wires) + [] == Buffered(s.wires);
    assert Line(Bind(s, sticky)) == Buffered(s.wires) + p;
  }

  /** A write of which only the first `n` bytes arrive. */
  lemma Shortened(out: seq<byte>, p: seq<byte>, n: nat, appended: seq<byte>)
    requires n <= |p| && Subseq(out + [] + p, appended)
    ensures Subseq(out + p[..n] + [] + [], appended)
  {
    hide Subseq;
    assert out + [] + p == (out + p[..n]) + p[n..] + [];
    SubseqDrop(out + p[..n], p[n..], [], appended);
    assert (out + p[..n]) + [] == out + p[..n] + [] + [];
  }

  /** The pending buffer may go out only when nothing older is left in the buffer. */
  lemma FlushPendingInOrder(s: WState, net: Net)
    requires InOrder(s) && (s.pending.Some? ==> s.bufs == [] && net.Fits(s.pending.value))
    ensures InOrder(FlushPending(s, net))
  {
    if s.pending.Some? && s.pending.value != [] {
      var p := s.pending.value;
      WriteLine(s, p, true, net);
      hide Subseq, Buffered, Cells;
      var sent := if s.sticky && s.broken then [] else p[..net.n];
      Shortened(Buffered(s.wires), p, |sent|, s.appended);
    }
  }

  datatype Op =
    | DoAppend(data: seq<byte>)
    | DoFlush(net: Net)
    | DoDirect(data: seq<byte>, net: Net)
    | DoSwitch
    | DoBind(sticky: bool)
    | DoFlushPending(net: Net)
    | DoDone

  /** What the callers of the writer guarantee, and what the network can answer. */
  predicate Allowed(s: WState, op: Op) {
    match op
    case DoAppend(_) => true
    case DoFlush(net) => s.pending.None? ==> s.bound && net.Fits(s.bufs)
    case DoDirect(data, net) => s.bound && net.Fits(data)
    case DoSwitch => true
    case DoBind(_) => true
    case DoFlushPending(net) => s.pending.Some? ==> s.bound && s.bufs == [] && net.Fits(s.pending.value)
    case DoDone => true
  }

  function Apply(s: WState, op: Op): WState
    requires Allowed(s, op)
  {
    match op
    case DoAppend(data) => Append(s, data)
    case DoFlush(net) => Flush(s, net)
    case DoDirect(data, net) => Direct(s, data, net)
    case DoSwitch => SwitchToPending(s)
    case DoBind(sticky) => Bind(s, sticky)
    case DoFlushPending(net) => FlushPending(s, net)
    case DoDone => DoneWithPending(s)
  }

  predicate Legal(s: WState, ops: seq<Op>)
    decreases |ops|
  {
    ops == [] || (Allowed(s, ops[0]) && Legal(Apply(s, ops[0]), ops[1..]))
  }

  function Run(s: WState, ops: seq<Op>): WState
    requires Legal(s, ops)
    decreases |ops|
  {
    if ops == [] then s else Run(Apply(s, ops[0]), ops[1..])
  }

  lemma StepInOrder(s: WState, op: Op)
    requires Allowed(s, op) && InOrder(s)
    ensures InOrder(Apply(s, op))
  {
    hide InOrder;
    match op
    case DoAppend(data) => AppendInOrder(s, data);
    case DoFlush(net) => FlushInOrder(s, net);
    case DoDirect(data, net) => DirectInOrder(s, data, net);
    case DoSwitch => SwitchInOrder(s);
    case DoBind(sticky) => BindInOrder(s, sticky);
    case DoFlushPending(net) => FlushPendingInOrder(s, net);
    case DoDone => SwitchInOrder(s);
  }

  /** At most once and in order, over every run in which no pending flush finds older bytes in the buffer. */
  lemma {:induction false} RunInOrder(s: WState, ops: seq<Op>)
    requires InOrder(s) && Legal(s, ops)
    ensures InOrder(Run(s, ops))
    decreases |ops|
  {
    if ops != [] {
      StepInOrder(s, ops[0]);
      RunInOrder(Apply(s, ops[0]), ops[1..]);
    }
  }

  lemma FreshInOrder()
    ensures InOrder(FRESH)
  {
    assert Embeds([], Line(FRESH), FRESH.appended);
  }

  /** The wire after a full flush, or a full pending flush, by a connection in good order. */
  lemma FullWrite(s: WState, data: seq<byte>)
    requires !s.broken
    ensures Buffered(Write(s, data, true, Net(|data|, true)).wires) == Buffered(s.wires) + data
  {
    assert data[..|data|] == data;
    WriteLine(s, data, true, Net(|data|, true));
  }

  /**
   The condition is needed: when the pending buffer goes out in front of a buffer that was never emptied,
   new bytes overtake old ones.
   */
  lemma PendingFlushCanOvertake(early: byte, late: byte)
    requires early != late
    ensures var s := SwitchToPending(Append(Bind(FRESH, true), [early]));
            var t := FlushPending(Append(s, [late]), Net(1, true));
            InOrder(s) && s.bufs == [early] && !InOrder(Flush(DoneWithPending(t), Net(1, true)))
  {
    FreshInOrder();
    BindInOrder(FRESH, true);
    AppendInOrder(Bind(FRESH, true), [early]);
    SwitchInOrder(Append(Bind(FRESH, true), [early]));
    NoSwap([early], [late], early, late);
    hide InOrder, Subseq, Write;
    var e := Overtaken(early, late);
    NotInOrder(e, [late] + [early], [early] + [late]);
  }

  /** The end of the run above. */
  lemma Overtaken(early: byte, late: byte) returns (e: WState)
    ensures var s := SwitchToPending(Append(Bind(FRESH, true), [early]));
            e == Flush(DoneWithPending(FlushPending(Append(s, [late]), Net(1, true))), Net(1, true))
    ensures Line(e) == [late] + [early] && e.appended == [early] + [late]
  {
    hide Buffered;
    var none: seq<byte> := [];
    assert none + [late] == [late] && none + [early] == [early];
    var p := Append(SwitchToPending(Append(Bind(FRESH, true), [early])), [late]);
    var d := DoneWithPending(FlushPending(p, Net(1, true)));
    e := Flush(d, Net(1, true));
    assert p.pending == Some([late]) && d.bufs == [early];
    assert Buffered(e.wires) == [late] + [early] by {
      assert Buffered(p.wires) == [] by { FreshWire(); }
      FullWrite(p, [late]);
      FullWrite(d, [early]);
    }
  }

  lemma NotInOrder(e: WState, line: seq<byte>, appended: seq<byte>)
    requires line == Line(e) && appended == e.appended && !Subseq(line, appended)
    ensures !InOrder(e)
  {
  }

  lemma FreshWire()
    ensures Buffered([]) == []
  {
  }

  lemma PairEmbedded(f: seq<nat>, a: seq<byte>, b: seq<byte>) returns (i: nat, j: nat)
    requires Embeds(f, a, b) && |a| == 2
    ensures i < j < |b| && a[0] == b[i] && a[1] == b[j]
  {
    i, j := f[0], f[1];
  }

  lemma NoSwap(o: seq<byte>, n: seq<byte>, early: byte, late: byte)
    requires o == [early] && n == [late] && early != late
    ensures !Subseq(n + o, o + n)
  {
    if Subseq(n + o, o + n) {
      var f: seq<nat> :| Embeds(f, n + o, o + n);
      var i, j := PairEmbedded(f, n + o, o + n);
      assert false;
    }
  }

  // ---- every byte in its place ----

  /** The buffer that appends go to. */
  function Outgoing(s: WState): seq<byte> { if s.pending.Some? then s.pending.value else s.bufs }

  /**
   The buffer in use is the end of the log. On the wires each buffered byte is the byte appended at its place,
   and the places increase and lie in front of that buffer: nothing is sent twice, nothing overtakes.
   */
  ghost predicate Placed(s: WState) {
    var end := |s.appended| - |Outgoing(s)|;
    0 <= end && Outgoing(s) == s.appended[end..] && InPlace(s.wires, s.appended, end)
  }

  ghost predicate InPlace(wires: seq<Cell>, log: seq<byte>, end: int) {
    && (forall i :: 0 <= i < |wires| && wires[i].at.Some? ==>
          0 <= wires[i].at.value < end <= |log| && wires[i].b == log[wires[i].at.value])
    && (forall i, j :: 0 <= i < j < |wires| && wires[i].at.Some? && wires[j].at.Some? ==>
          wires[i].at.value < wires[j].at.value)
  }

  lemma InPlaceLater(wires: seq<Cell>, log: seq<byte>, end: int, log': seq<byte>, end': int)
    requires InPlace(wires, log, end) && log <= log' && end <= end' <= |log'|
    ensures InPlace(wires, log', end')
  {
  }

  lemma InPlaceWrite(wires: seq<Cell>, log: seq<byte>, end: nat, n: nat)
    requires InPlace(wires, log, end) && end + n <= |log|
    ensures InPlace(wires + Cells(log[end..], Some(end))[..n], log, |log|)
  {
    var more := Cells(log[end..], Some(end))[..n];
    assert forall k :: 0 <= k < n ==> more[k].at == Some(end + k) && more[k].b == log[end + k];
  }

  lemma InPlaceDirect(wires: seq<Cell>, log: seq<byte>, end: int, data: seq<byte>, n: nat)
    requires InPlace(wires, log, end) && n <= |data|
    ensures InPlace(wires + Cells(data, None)[..n], log, end)
  {
  }

  lemma AppendPlaced(s: WState, data: seq<byte>)
    requires Placed(s)
    ensures Placed(Append(s, data))
  {
    var end := |s.appended| - |Outgoing(s)|;
    InPlaceLater(s.wires, s.appended, end, s.appended + data, end);
    hide InPlace;
    assert (s.appended + data)[end..] == s.appended[end..] + data;
  }

  /** Everything in the buffer in use was handed over, and the buffer emptied. */
  lemma WritePlaced(s: WState, data: seq<byte>, net: Net)
    requires Placed(s) && data == Outgoing(s) && net.Fits(data)
    ensures InPlace(Write(s, data, true, net).wires, s.appended, |s.appended|)
  {
    var end := |s.appended| - |data|;
    InPlaceWrite(s.wires, s.appended, end, net.n);
    InPlaceLater(s.wires, s.appended, end, s.appended, |s.appended|);
    hide InPlace, Cells;
  }

  /** A state whose buffer in use is empty. */
  lemma EmptyPlaced(s: WState)
    requires Outgoing(s) == [] && InPlace(s.wires, s.appended, |s.appended|)
    ensures Placed(s)
  {
    hide InPlace;
    assert s.appended[|s.appended|..] == [];
  }

  lemma FlushPlaced(s: WState, net: Net)
    requires Placed(s) && Allowed(s, DoFlush(net))
    ensures Placed(Flush(s, net))
  {
    if s.pending.None? {
      WritePlaced(s, s.bufs, net);
      hide Placed, InPlace, Cells;
      EmptyPlaced(Flush(s, net));
    }
  }

  lemma FlushPendingPlaced(s: WState, net: Net)
    requires Placed(s) && Allowed(s, DoFlushPending(net))
    ensures Placed(FlushPending(s, net))
  {
    if s.pending.Some? && s.pending.value != [] {
      WritePlaced(s, s.pending.value, net);
      hide Placed, InPlace, Cells;
      EmptyPlaced(FlushPending(s, net));
    }
  }

  lemma DirectPlaced(s: WState, data: seq<byte>, net: Net)
    requires Placed(s) && Allowed(s, DoDirect(data, net))
    ensures Placed(Direct(s, data, net))
  {
    InPlaceDirect(s.wires, s.appended, |s.appended| - |Outgoing(s)|, data, net.n);
    hide InPlace, Cells;
  }

  /** The buffer in use is replaced by an empty one. */
  lemma FreshBufferPlaced(s: WState, t: WState)
    requires Placed(s) && t.wires == s.wires && t.appended == s.appended && Outgoing(t) in {[], Outgoing(s)}
    ensures Placed(t)
  {
    InPlaceLater(s.wires, s.appended, |s.appended| - |Outgoing(s)|, s.appended, |s.appended|);
    hide InPlace;
    if Outgoing(t) == [] { EmptyPlaced(t); }
  }

  lemma StepPlaced(s: WState, op: Op)
    requires Allowed(s, op) && Placed(s) && (op.DoDone? && s.pending.Some? ==> s.bufs == [])
    ensures Placed(Apply(s, op))
  {
    hide Placed, Write;
    match op
    case DoAppend(data) => AppendPlaced(s, data);
    case DoFlush(net) => FlushPlaced(s, net);
    case DoDirect(data, net) => DirectPlaced(s, data, net);
    case DoFlushPending(net) => FlushPendingPlaced(s, net);
    case DoSwitch => FreshBufferPlaced(s, SwitchToPending(s));
    case DoBind(sticky) => FreshBufferPlaced(s, Bind(s, sticky));
    case DoDone => FreshBufferPlaced(s, DoneWithPending(s));
  }

  // ---- one connection ----

  /** The wire of the current connection. */
  function Wire(s: WState): seq<Cell>
    requires s.start <= |s.wires|
  {
    s.wires[s.start..]
  }

  /** What was appended since the connection was bound, as cells. */
  function Since(s: WState): seq<Cell>
    requires s.base <= |s.appended|
  {
    Cells(s.appended[s.base..], Some(s.base))
  }

  /** What is still in the buffer, as cells. */
  function Unsent(s: WState): seq<Cell> { Cells(s.bufs, Origin(s, s.bufs, true)) }

  /**
   What holds of the current connection: until its first failed write the wire is what was handed to it,
   and behind a `timeoutWriter` it stays a prefix of that for good. Without a pending buffer, what was handed over
   from the buffer and what is still in it are together what was appended since binding.
   */
  ghost predicate ConnInv(s: WState) {
    && s.start <= |s.wires| && s.base <= |s.appended|
    && (s.bound && !s.broken ==> Wire(s) == s.handed)
    && (s.bound && s.sticky ==> Wire(s) <= s.handed)
    && |Kept(Wire(s))| <= |Kept(s.handed)|
    && (s.plain ==> s.bound && s.pending.None? && Kept(s.handed) + Unsent(s) == Since(s))
  }

  lemma WriteConn(s: WState, data: seq<byte>, buffered: bool, net: Net)
    requires net.Fits(data) && s.start <= |s.wires|
    requires (s.bound && !s.broken ==> Wire(s) == s.handed) && (s.bound && s.sticky ==> Wire(s) <= s.handed)
    ensures var t := Write(s, data, buffered, net);
            && t == s.(wires := t.wires, handed := t.handed, broken := t.broken) && t.start <= |t.wires|
            && (t.bound && !t.broken ==> Wire(t) == t.handed)
            && (t.bound && t.sticky ==> Wire(t) <= t.handed)
            && Kept(t.handed) == Kept(s.handed) + (if buffered then Cells(data, Origin(s, data, true)) else [])
            && Kept(Wire(t)) == Kept(Wire(s)) +
                                if buffered && !(s.sticky && s.broken) then Cells(data, Origin(s, data, true))[..net.n] else []
  {
    var from := Origin(s, data, buffered);
    var cells := Cells(data, from);
    KeptPiece(s.handed, data, from, |data|);
    KeptPiece(Wire(s), data, from, net.n);
    WholePiece(data, from);
    hide Kept, Cells;
    WireGrows(s.wires, s.start, s.handed, cells, net.n);
  }

  lemma WholePiece(data: seq<byte>, from: Option<int>)
    ensures |Cells(data, from)| == |data| && Cells(data, from)[..|data|] == Cells(data, from)
  {
  }

  /** What the first `n` cells of a write add to what came through the buffers. */
  lemma KeptPiece(cells: seq<Cell>, data: seq<byte>, from: Option<int>, n: nat)
    requires n <= |data|
    ensures |Cells(data, from)| == |data|
    ensures Kept(cells + Cells(data, from)[..n]) == Kept(cells) + if from.Some? then Cells(data, from)[..n] else []
    ensures Kept(cells) + [] == Kept(cells)
  {
    assert Cells(data, from)[..n] == Cells(data[..n], from);
    KeptCells(data[..n], from);
    hide Kept;
    KeptConcat(cells, Cells(data, from)[..n]);
  }

  lemma WireGrows(wires: seq<Cell>, start: nat, handed: seq<Cell>, more: seq<Cell>, n: nat)
    requires start <= |wires| && n <= |more|
    ensures (wires + more[..n])[start..] == wires[start..] + more[..n]
    ensures wires[start..] == handed && n == |more| ==> wires[start..] + more[..n] == handed + more
    ensures wires[start..] == handed ==> wires[start..] + more[..n] <= handed + more
    ensures wires[start..] <= handed ==> wires[start..] <= handed + more
  {
  }

  lemma WiresGrow(s: WState, op: Op)
    requires Allowed(s, op)
    ensures s.wires <= Apply(s, op).wires
    ensures !op.DoBind? ==> Apply(s, op).start == s.start && Apply(s, op).base == s.base
    ensures s.appended <= Apply(s, op).appended
  {
  }

  lemma StaysBound(s: WState, op: Op)
    requires Allowed(s, op)
    ensures s.bound ==> Apply(s, op).bound
  {
  }

  /** A connection on which the buffered bytes arrive in order and without a hole was one before, unless it is new. */
  lemma PlainBefore(s: WState, op: Op)
    requires Allowed(s, op) && !op.DoBind?
    ensures Apply(s, op).sticky == s.sticky
    ensures Apply(s, op).plain ==> s.plain
    ensures s.broken ==> Apply(s, op).broken
  {
  }

  lemma AppendConn(s: WState, data: seq<byte>)
    requires ConnInv(s)
    ensures ConnInv(Append(s, data))
  {
    if s.plain {
      CellsConcat(s.appended[s.base..], data, s.base);
      CellsConcat(s.bufs, data, |s.appended| - |s.bufs|);
      hide Kept, Cells;
      assert (s.appended + data)[s.base..] == s.appended[s.base..] + data;
      var kept, unsent, more := Kept(s.handed), Unsent(s), Cells(data, Some(|s.appended|));
      assert kept + (unsent + more) == (kept + unsent) + more;
    }
  }

  lemma FlushConn(s: WState, net: Net)
    requires Allowed(s, DoFlush(net)) && ConnInv(s)
    ensures ConnInv(Flush(s, net))
  {
    if s.pending.None? {
      WriteConn(s, s.bufs, true, net);
      EmptyCells();
      hide Kept, Cells;
      var t := Flush(s, net);
      assert Kept(t.handed) + [] == Kept(t.handed);
    }
  }

  lemma EmptyCells()
    ensures forall from :: Cells([], from) == []
  {
  }

  lemma DirectConn(s: WState, data: seq<byte>, net: Net)
    requires Allowed(s, DoDirect(data, net)) && ConnInv(s)
    ensures ConnInv(Direct(s, data, net))
  {
    hide Kept, Cells, Write;
    WriteConn(s, data, false, net);
    assert Kept(s.handed) + [] == Kept(s.handed) && Kept(Wire(s)) + [] == Kept(Wire(s));
  }

  lemma FlushPendingConn(s: WState, net: Net)
    requires Allowed(s, DoFlushPending(net)) && ConnInv(s)
    ensures ConnInv(FlushPending(s, net))
  {
    if s.pending.Some? && s.pending.value != [] {
      WriteConn(s, s.pending.value, true, net);
      hide Kept, Cells;
    }
  }

  lemma BindConn(s: WState, sticky: bool)
    ensures ConnInv(Bind(s, sticky))
  {
    EmptyCells();
    hide Cells;
    assert s.appended[|s.appended|..] == [] && s.wires[|s.wires|..] == [];
  }

  lemma StepConn(s: WState, op: Op)
    requires Allowed(s, op) && ConnInv(s)
    ensures ConnInv(Apply(s, op))
  {
    match op
    case DoAppend(data) => AppendConn(s, data);
    case DoFlush(net) => FlushConn(s, net);
    case DoDirect(data, net) => DirectConn(s, data, net);
    case DoFlushPending(net) => FlushPendingConn(s, net);
    case DoBind(sticky) => BindConn(s, sticky);
    case DoSwitch =>
    case DoDone =>
  }

  /** The single-connection facts hold in every state of every run. */
  lemma {:induction false} RunConn(s: WState, ops: seq<Op>)
    requires ConnInv(s) && Legal(s, ops)
    ensures ConnInv(Run(s, ops))
    decreases |ops|
  {
    if ops != [] {
      StepConn(s, ops[0]);
      RunConn(Apply(s, ops[0]), ops[1..]);
    }
  }

  lemma {:induction false} KeptPrefix(a: seq<Cell>, b: seq<Cell>)
    requires a <= b
    ensures Kept(a) <= Kept(b)
  {
    assert b == a + b[|a|..];
    KeptConcat(a, b[|a|..]);
  }

  /** Place by place, what came through the buffer onto the wire is a front part of what was appended since binding. */
  ghost predicate PlacePrefix(s: WState) {
    s.start <= |s.wires| && s.base <= |s.appended| && Kept(Wire(s)) <= Since(s)
  }

  /** So it is as long as nothing is accepted after a failed write. */
  lemma GoodPlaces(s: WState)
    requires ConnInv(s) && s.plain && (s.sticky || !s.broken)
    ensures PlacePrefix(s)
  {
    KeptPrefix(Wire(s), s.handed);
    hide Kept;
    assert Kept(s.handed) <= Since(s);
  }

  /** Any front part of a wire in good order is a front part of what was appended, place by place. */
  lemma PlainFront(s: WState, front: seq<Cell>)
    requires PlacePrefix(s) && front <= Wire(s)
    ensures Kept(front) <= Since(s)
    ensures Kept(front) == Cells(Buffered(front), Some(s.base))
    ensures Buffered(front) <= s.appended[s.base..]
  {
    KeptPrefix(front, Wire(s));
    hide Kept;
    FrontOfCells(s.appended[s.base..], s.base, Kept(front));
  }

  lemma FrontOfCells(data: seq<byte>, from: int, front: seq<Cell>)
    requires front <= Cells(data, Some(from))
    ensures front == Cells(BytesOf(front), Some(from)) && BytesOf(front) <= data
  {
    assert forall i :: 0 <= i < |front| ==> front[i] == Cells(data, Some(from))[i];
  }

  /** Until a write fails, the wire and the buffer are everything appended since binding. */
  lemma NothingMissing(s: WState)
    requires ConnInv(s) && s.plain && !s.broken
    ensures Buffered(Wire(s)) + s.bufs == s.appended[s.base..]
  {
    BytesOfLaws(Kept(s.handed), Unsent(s), s.bufs, Origin(s, s.bufs, true));
    BytesOfLaws([], [], s.appended[s.base..], Some(s.base));
    hide Kept, Cells, BytesOf;
  }

  // ---- direct writes ----

  /** The bytes of a wire that were written directly. */
  function DirectOf(cells: seq<Cell>): seq<byte> {
    if cells == [] then []
    else DirectOf(cells[..|cells| - 1]) + if cells[|cells| - 1].at.None? then [cells[|cells| - 1].b] else []
  }

  lemma {:induction false} DirectConcat(a: seq<Cell>, b: seq<Cell>)
    ensures DirectOf(a + b) == DirectOf(a) + DirectOf(b)
  {
    if b == [] {
      assert a + b == a;
    } else {
      DirectConcat(a, b[..|b| - 1]);
      assert (a + b)[..|a + b| - 1] == a + b[..|b| - 1];
    }
  }

  lemma {:induction false} DirectCells(data: seq<byte>, from: Option<int>)
    ensures DirectOf(Cells(data, from)) == if from.None? then data else []
  {
    if data != [] {
      var n := |data| - 1;
      DirectCells(data[..n], from);
      assert Cells(data, from)[..n] == Cells(data[..n], from);
    }
  }

  lemma WriteHands(s: WState, data: seq<byte>, buffered: bool, net: Net)
    requires net.Fits(data)
    ensures var t := Write(s, data, buffered, net);
            t.handed == s.handed + Cells(data, Origin(s, data, buffered)) && (s.broken ==> t.broken)
  {
    hide Cells;
  }

  /** What an operation hands to the connection besides buffered bytes is what it was asked to write directly. */
  lemma StepDirects(s: WState, op: Op)
    requires Allowed(s, op) && !op.DoBind?
    ensures var t := Apply(s, op);
            && s.handed <= t.handed && (s.broken ==> t.broken)
            && DirectOf(t.handed) == DirectOf(s.handed) + (if op.DoDirect? then op.data else [])
            && (op.DoDirect? ==> t.handed == s.handed + Cells(op.data, None))
  {
    assert DirectOf(s.handed) + [] == DirectOf(s.handed);
    match op
    case DoFlush(net) => if s.pending.None? { DirectsHanded(s, s.bufs, true, net); }
    case DoDirect(data, net) => DirectsHanded(s, data, false, net);
    case DoFlushPending(net) => if s.pending.Some? && s.pending.value != [] { DirectsHanded(s, s.pending.value, true, net); }
    case _ =>
  }

  lemma DirectsHanded(s: WState, data: seq<byte>, buffered: bool, net: Net)
    requires net.Fits(data)
    ensures var t := Write(s, data, buffered, net);
            && t.handed == s.handed + Cells(data, Origin(s, data, buffered)) && (s.broken ==> t.broken)
            && DirectOf(t.handed) == DirectOf(s.handed) + if buffered then [] else data
  {
    WriteHands(s, data, buffered, net);
    DirectConcat(s.handed, Cells(data, Origin(s, data, buffered)));
    DirectCells(data, Origin(s, data, buffered));
    hide Write, DirectOf, Cells;
  }

  // ---- when the wire is a prefix of what was appended, run by run ----

  /** Some byte handed over from the buffer did not arrive. */
  predicate Lossy(s: WState) { s.start <= |s.wires| && |Kept(Wire(s))| < |Kept(s.handed)| }

  /** The operation puts a byte from the buffer on the wire. */
  predicate Arrives(s: WState, op: Op) { op.DoFlush? && s.pending.None? && !(s.sticky && s.broken) && op.net.n > 0 }

  /** An operation keeps the wire a prefix unless it puts a byte behind lost ones, and never mends it. */
  lemma PrefixStep(s: WState, op: Op)
    requires ConnInv(s) && Allowed(s, op) && !op.DoBind? && Apply(s, op).plain
    ensures PlacePrefix(Apply(s, op)) <==> PlacePrefix(s) && !(Lossy(s) && Arrives(s, op))
  {
    PlainBefore(s, op);
    match op
    case DoAppend(data) => PrefixAppend(s, data);
    case DoFlush(net) => PrefixFlush(s, net);
    case DoDirect(data, net) =>
      WriteConn(s, data, false, net);
      hide Kept, Cells;
    case _ =>
  }

  lemma PrefixAppend(s: WState, data: seq<byte>)
    requires ConnInv(s) && s.plain
    ensures PlacePrefix(Append(s, data)) <==> PlacePrefix(s)
  {
    CellsConcat(s.appended[s.base..], data, s.base);
    hide Kept, Cells;
    var t := Append(s, data);
    assert (s.appended + data)[s.base..] == s.appended[s.base..] + data;
    assert |Kept(s.handed)| <= |Since(s)|;
    FrontOfLonger(Kept(Wire(s)), Since(s), Cells(data, Some(|s.appended|)));
  }

  lemma FrontOfLonger<T>(front: seq<T>, a: seq<T>, b: seq<T>)
    requires |front| <= |a|
    ensures front <= a + b <==> front <= a
  {
    assert (a + b)[..|front|] == a[..|front|];
  }

  lemma PrefixFlush(s: WState, net: Net)
    requires ConnInv(s) && s.plain && Allowed(s, DoFlush(net))
    ensures PlacePrefix(Flush(s, net)) <==> PlacePrefix(s) && !(Lossy(s) && Arrives(s, DoFlush(net)))
  {
    WriteConn(s, s.bufs, true, net);
    PlacesOf(s);
    hide Kept, Cells, Write, Since, Unsent;
    var kept, handed, all, more := Kept(Wire(s)), Kept(s.handed), Since(s), Unsent(s);
    FlushSame(s, net);
    if !(s.sticky && s.broken) && net.n > 0 {
      NextPlace(kept, handed, all, more, net.n, s.base);
    } else {
      assert kept + [] == kept && kept + more[..0] == kept;
    }
  }

  lemma FlushSame(s: WState, net: Net)
    requires s.base <= |s.appended| && Allowed(s, DoFlush(net))
    ensures var t := Flush(s, net); t.base == s.base && t.appended == s.appended && Since(t) == Since(s)
    ensures s.pending.None? ==> Write(s, s.bufs, true, net).wires == Flush(s, net).wires
                                && Write(s, s.bufs, true, net).start == Flush(s, net).start
    ensures Unsent(s) == Cells(s.bufs, Origin(s, s.bufs, true))
  {
  }

  /** The places of what was appended since binding and of what is still in the buffer. */
  lemma PlacesOf(s: WState)
    requires s.base <= |s.appended|
    ensures |Since(s)| == |s.appended| - s.base && |Unsent(s)| == |s.bufs|
    ensures forall i :: 0 <= i < |Since(s)| ==> Since(s)[i].at == Some(s.base + i)
  {
  }

  lemma NextPlace(kept: seq<Cell>, handed: seq<Cell>, all: seq<Cell>, more: seq<Cell>, n: nat, base: int)
    requires handed + more == all && |kept| <= |handed| && 0 < n <= |more|
    requires forall i :: 0 <= i < |all| ==> all[i].at == Some(base + i)
    ensures kept + more[..n] <= all <==> kept <= all && |kept| == |handed|
  {
    var out := kept + more[..n];
    assert out[|kept|] == more[0] == all[|handed|];
    if out <= all {
      assert all[|kept|] == out[|kept|];
      assert out[..|kept|] == kept;
    }
    if kept <= all && |kept| == |handed| {
      assert kept == all[..|kept|] == handed;
      assert out == all[..|kept| + n];
    }
  }

  lemma NewWireWhole(s: WState, sticky: bool)
    ensures PlacePrefix(Bind(s, sticky))
  {
    assert s.wires[|s.wires|..] == [];
  }

  lemma PlacesGiveBytes(s: WState)
    ensures PlacePrefix(s) ==> PrefixWire(s)
  {
    if PlacePrefix(s) {
      FrontOfCells(s.appended[s.base..], s.base, Kept(Wire(s)));
    }
  }

  // ---- when the wire is a prefix of what was appended ----

  ghost predicate PrefixWire(s: WState) {
    s.plain ==> s.start <= |s.wires| && s.base <= |s.appended| && Buffered(Wire(s)) <= s.appended[s.base..]
  }

  predicate NoBind(ops: seq<Op>) { forall i :: 0 <= i < |ops| ==> !ops[i].DoBind? }

  lemma {:induction false} StickyStays(s: WState, ops: seq<Op>)
    requires Legal(s, ops) && NoBind(ops)
    ensures Run(s, ops).sticky == s.sticky
    decreases |ops|
  {
    if ops != [] {
      PlainBefore(s, ops[0]);
      StickyStays(Apply(s, ops[0]), ops[1..]);
    }
  }

  /** One flush on a raw connection in a plain state: what reaches the wire, whatever happened before. */
  lemma RawFlush(s: WState, net: Net)
    requires s.start <= |s.wires| && s.pending.None? && !s.sticky && net.Fits(s.bufs)
    ensures var t := Flush(s, net);
            && t.start == s.start <= |t.wires| && t.bufs == [] && t.base == s.base && t.plain == s.plain
            && t.bound == s.bound && !t.sticky && t.pending.None? && t.appended == s.appended
            && Buffered(Wire(t)) == Buffered(Wire(s)) + s.bufs[..net.n]
  {
    var from := Origin(s, s.bufs, true);
    var cells := Cells(s.bufs[..net.n], from);
    assert Cells(s.bufs, from)[..net.n] == cells;
    BufferedConcat(Wire(s), cells);
    BufferedCells(s.bufs[..net.n], from);
    hide Buffered, Cells;
    assert (s.wires + cells)[s.start..] == Wire(s) + cells;
  }

  /** An append to an empty buffer and its flush. */
  lemma RawPiece(s: WState, data: seq<byte>, net: Net)
    requires s.start <= |s.wires| && s.pending.None? && !s.sticky && s.bufs == [] && net.Fits(data)
    ensures Append(s, data).bufs == data
    ensures var t := Flush(Append(s, data), net);
            && t.start == s.start <= |t.wires| && t.bufs == [] && t.base == s.base && t.plain == s.plain
            && t.bound == s.bound && !t.sticky && t.pending.None? && t.appended == s.appended + data
            && Buffered(Wire(t)) == Buffered(Wire(s)) + data[..net.n]
  {
    var x := Append(s, data);
    assert [] + data == data;
    RawFlush(x, net);
    hide Buffered, Write, Flush;
  }

  /** Without the `timeoutWriter` a connection goes on after a partial write, and its wire gets a hole. */
  lemma RawConnectionCanHaveHole(b: WState)
    requires b.bound && b.plain && !b.sticky && b.pending.None? && b.bufs == []
    requires b.start == |b.wires| && b.base == |b.appended|
    ensures var s := Flush(Append(b, [1, 2]), Net(1, false)); !PrefixWire(Flush(Append(s, [3]), Net(1, true)))
  {
    FreshWire();
    var all, one, three: seq<byte> := [1, 2], [1], [3];
    assert all[..1] == one && three[..1] == three && Wire(b) == [];
    RawPiece(b, all, Net(1, false));
    var s := Flush(Append(b, all), Net(1, false));
    RawPiece(s, three, Net(1, true));
    hide Buffered, Append, Flush;
    var t := Flush(Append(s, three), Net(1, true));
    HoleIsNoPrefix(b.appended);
    assert Buffered(Wire(t)) == [] + one + three;
    assert t.appended == b.appended + all + three;
  }

  lemma HoleIsNoPrefix(before: seq<byte>)
    ensures !([] + [1] + [3] <= (before + [1, 2] + [3])[|before|..])
  {
    var log: seq<byte> := before + [1, 2] + [3];
    assert log[|before|..][1] == 2 && ([] + [1] + [3])[1] == 3;
  }

  /**
   Over every run of one connection its buffered wire is a prefix of what was appended, if and only if the
   connection sits behind a `timeoutWriter`.
   */
  lemma WirePrefixExactly(sticky: bool)
    ensures (forall ops :: Legal(Bind(FRESH, sticky), ops) && NoBind(ops) ==> PrefixWire(Run(Bind(FRESH, sticky), ops)))
            <==> sticky
  {
    var b := Bind(FRESH, sticky);
    BindConn(FRESH, sticky);
    if sticky {
      forall ops | Legal(b, ops) && NoBind(ops) ensures PrefixWire(Run(b, ops)) {
        RunConn(b, ops);
        StickyStays(b, ops);
        StickyPrefix(Run(b, ops));
      }
    } else {
      hide *;
      var ops := HoleRun();
      assert !PrefixWire(Run(b, ops));
    }
  }

  lemma HoleRun() returns (ops: seq<Op>)
    ensures var b := Bind(FRESH, false); Legal(b, ops) && NoBind(ops) && !PrefixWire(Run(b, ops))
  {
    var b := Bind(FRESH, false);
    RawConnectionCanHaveHole(b);
    hide PrefixWire, Write;
    ops := [DoAppend([1, 2]), DoFlush(Net(1, false)), DoAppend([3]), DoFlush(Net(1, true))];
    RunOfFour(b, ops);
  }

  lemma StickyPrefix(s: WState)
    requires ConnInv(s) && s.sticky
    ensures PrefixWire(s)
  {
    if s.plain {
      GoodPlaces(s);
      hide ConnInv;
      PlainFront(s, Wire(s));
    }
  }

  lemma RunOfFour(s: WState, ops: seq<Op>)
    requires |ops| == 4
    requires Allowed(s, ops[0]) && Allowed(Apply(s, ops[0]), ops[1])
    requires var t := Apply(Apply(s, ops[0]), ops[1]); Allowed(t, ops[2]) && Allowed(Apply(t, ops[2]), ops[3])
    ensures Legal(s, ops) && Run(s, ops) == Apply(Apply(Apply(Apply(s, ops[0]), ops[1]), ops[2]), ops[3])
  {
    hide Allowed, Apply;
    var s1 := Apply(s, ops[0]);
    var s2 := Apply(s1, ops[1]);
    var s3 := Apply(s2, ops[2]);
    RunOne(s3, ops, 3);
    RunOne(s2, ops, 2);
    RunOne(s1, ops, 1);
    RunOne(s, ops, 0);
    assert ops[0..] == ops && ops[4..] == [];
  }

  lemma RunOne(s: WState, ops: seq<Op>, i: nat)
    requires i < |ops| && Allowed(s, ops[i]) && Legal(Apply(s, ops[i]), ops[i + 1..])
    ensures Legal(s, ops[i..]) && Run(s, ops[i..]) == Run(Apply(s, ops[i]), ops[i + 1..])
  {
    hide Allowed, Apply;
    assert ops[i..][1..] == ops[i + 1..];
  }
}
