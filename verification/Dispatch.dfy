/**
 The read loop and the dispatch of decoded frames: what reaches the packet handler does not
 depend on how the network cuts the stream, unless a frame fails to decode.
 */
module Dispatch {
  import opened Prelude
  import opened Framing

  /** The protocol library's `DecodeFrame`: a packet and the bytes it took, or an error. */
  type Decoder<!F(!new)> = seq<byte> -> Option<(F, nat)>

  /** `decode` looks at exactly the frame at the front of its argument. */
  ghost predicate OneFrame<F(!new)>(decode: Decoder<F>) {
    forall d: seq<byte> :: d != [] && FrameSize(d).Some? ==>
      && decode(d) == decode(d[..FrameSize(d).value])
      && (decode(d).Some? ==> decode(d).value.1 == FrameSize(d).value)
  }

  /** All frames decoded, or nothing when one of them fails. */
  function DecodeAll<F(!new)>(decode: Decoder<F>, frames: seq<seq<byte>>): Option<seq<F>> {
    if frames == [] then Some([])
    else if decode(frames[0]).None? then None
    else
      var tail := DecodeAll(decode, frames[1..]);
      if tail.None? then None else Some([decode(frames[0]).value.0] + tail.value)
  }

  /** How many frames decode before the first that does not. */
  function GoodPrefix<F(!new)>(decode: Decoder<F>, frames: seq<seq<byte>>): nat {
    if frames == [] || decode(frames[0]).None? then 0 else 1 + GoodPrefix(decode, frames[1..])
  }

  lemma {:induction false} GoodPrefixBound<F(!new)>(decode: Decoder<F>, frames: seq<seq<byte>>)
    ensures GoodPrefix(decode, frames) <= |frames|
    ensures DecodeAll(decode, frames).Some? <==> GoodPrefix(decode, frames) == |frames|
    ensures DecodeAll(decode, frames[..GoodPrefix(decode, frames)]).Some?
    ensures DecodeAll(decode, frames).Some? ==> |DecodeAll(decode, frames).value| == |frames|
  {
    var n := GoodPrefix(decode, frames);
    if n > 0 {
      GoodPrefixBound(decode, frames[1..]);
      assert frames[..n][1..] == frames[1..][..n - 1];
    }
  }

  lemma {:induction false} DecodeAllConcat<F(!new)>(decode: Decoder<F>, a: seq<seq<byte>>, b: seq<seq<byte>>)
    ensures DecodeAll(decode, a + b).Some? <==> DecodeAll(decode, a).Some? && DecodeAll(decode, b).Some?
    ensures DecodeAll(decode, a + b).Some? ==>
              DecodeAll(decode, a + b).value == DecodeAll(decode, a).value + DecodeAll(decode, b).value
    ensures GoodPrefix(decode, a + b) ==
            if DecodeAll(decode, a).Some? then |a| + GoodPrefix(decode, b) else GoodPrefix(decode, a)
  {
    if a == [] {
      assert a + b == b;
    } else {
      DecodeAllConcat(decode, a[1..], b);
      assert (a + b)[1..] == a[1..] + b && (a + b)[0] == a[0];
      if decode(a[0]).Some? && DecodeAll(decode, a[1..]).Some? && DecodeAll(decode, b).Some? {
        var first := [decode(a[0]).value.0];
        assert first + (DecodeAll(decode, a[1..]).value + DecodeAll(decode, b).value)
            == (first + DecodeAll(decode, a[1..]).value) + DecodeAll(decode, b).value;
      }
    }
  }

  /** What is decoded, frame by frame. */
  lemma {:induction false} DecodeAllMeans<F(!new)>(decode: Decoder<F>, frames: seq<seq<byte>>)
    ensures var r := DecodeAll(decode, frames);
            && (r.None? <==> exists k :: 0 <= k < |frames| && decode(frames[k]).None?)
            && (r.Some? ==> |r.value| == |frames| &&
                            forall k :: 0 <= k < |frames| ==> decode(frames[k]).Some? && r.value[k] == decode(frames[k]).value.0)
  {
    if frames != [] {
      DecodeAllMeans(decode, frames[1..]);
      var r := DecodeAll(decode, frames);
      if k :| 0 <= k < |frames| && decode(frames[k]).None? {
        if k > 0 { assert decode(frames[1..][k - 1]).None?; }
      }
      if r.None? && decode(frames[0]).Some? {
        var k :| 0 <= k < |frames[1..]| && decode(frames[1..][k]).None?;
        assert decode(frames[k + 1]).None?;
      }
      if r.Some? {
        forall k | 0 <= k < |frames| ensures decode(frames[k]).Some? && r.value[k] == decode(frames[k]).value.0 {
          if k > 0 { assert frames[k] == frames[1..][k - 1]; }
        }
      }
    }
  }

  /** One turn of the decoding loop: the decoder sees frame `k`, and takes its bytes. */
  lemma NextFrame<F(!new)>(decode: Decoder<F>, data: seq<byte>, frames: seq<seq<byte>>, k: nat)
    requires OneFrame(decode) && AllFrames(frames) && k < |frames|
    requires data == Flatten(frames[k..])
    ensures data != [] && |frames[k]| <= |data| && decode(data) == decode(frames[k])
    ensures data[|frames[k]|..] == Flatten(frames[k + 1..])
    ensures decode(data).Some? ==> decode(data).value.1 == |frames[k]| > 0
    ensures decode(data).Some? && DecodeAll(decode, frames[..k]).Some? ==>
              DecodeAll(decode, frames[..k + 1]) == Some(DecodeAll(decode, frames[..k]).value + [decode(data).value.0])
    ensures decode(data).None? ==> DecodeAll(decode, frames).None?
  {
    var f := frames[k];
    GoodTail(decode, frames, k);
    assert IsFrame(f) && f != [];
    hide FrameSize, DecodeAll, IsFrame;
    assert frames[k..][1..] == frames[k + 1..];
    assert data == f + Flatten(frames[k + 1..]);
    assert data[..|f|] == f;
    FrameIsItsOwnSize(f, Flatten(frames[k + 1..]));
  }

  lemma DecodeOne<F(!new)>(decode: Decoder<F>, f: seq<byte>)
    ensures DecodeAll(decode, [f]) == if decode(f).None? then None else Some([decode(f).value.0])
  {
    assert [f][1..] == [];
    if decode(f).Some? {
      assert [decode(f).value.0] + [] == [decode(f).value.0];
    }
  }

  /** No frame is empty, so the bytes run out exactly when the frames do. */
  lemma FlattenOfFrames(frames: seq<seq<byte>>, k: nat)
    requires AllFrames(frames) && k <= |frames|
    ensures Flatten(frames[k..]) == [] <==> frames[k..] == []
  {
  }

  /** Decoding one frame more. */
  lemma GoodTail<F(!new)>(decode: Decoder<F>, frames: seq<seq<byte>>, k: nat)
    requires k < |frames|
    ensures decode(frames[k]).Some? && DecodeAll(decode, frames[..k]).Some? ==>
              DecodeAll(decode, frames[..k + 1]) == Some(DecodeAll(decode, frames[..k]).value + [decode(frames[k]).value.0])
    ensures decode(frames[k]).None? ==> DecodeAll(decode, frames).None?
  {
    hide *;
    var one := [frames[k]];
    DecodeOne(decode, frames[k]);
    DecodeAllConcat(decode, frames[..k], one);
    assert frames[..k] + one == frames[..k + 1];
    DecodeAllConcat(decode, frames[..k + 1], frames[k + 1..]);
    assert frames[..k + 1] + frames[k + 1..] == frames;
  }

  /**
   `handlePacketDatas`: decode the whole batch first, hand the packets out afterwards.
   A batch with an undecodable frame hands out nothing.
   */
  method HandlePacketDatas<F(!new)>(decode: Decoder<F>, packetData: seq<byte>) returns (packets: Option<seq<F>>)
    requires OneFrame(decode)
    requires Split(packetData).rest == []
    ensures packets == DecodeAll(decode, Split(packetData).frames)
    ensures var frames := Split(packetData).frames;
            && (packets.None? <==> exists k :: 0 <= k < |frames| && decode(frames[k]).None?)
            && (packets.Some? ==> |packets.value| == |frames| &&
                                  forall k :: 0 <= k < |frames| ==> packets.value[k] == decode(frames[k]).value.0)
  {
    hide Split, FrameSize;
    ghost var frames := Split(packetData).frames;
    SplitSound(packetData);
    var decoded := [];
    var offset := 0;
    ghost var k := 0;
    assert frames[k..] == frames && packetData[offset..] == packetData;
    while |packetData| > offset
      invariant 0 <= k <= |frames| && offset <= |packetData|
      invariant packetData[offset..] == Flatten(frames[k..])
      invariant DecodeAll(decode, frames[..k]) == Some(decoded)
      decreases |packetData| - offset
    {
      var data := packetData[offset..];
      assert k < |frames|;
      ghost var f := frames[k];
      NextFrame(decode, data, frames, k);
      var r := decode(data);
      if r.None? {
        DecodeAllMeans(decode, frames);
        return None;
      }
      var (packet, size) := r.value;
      decoded := decoded + [packet];
      offset := offset + size;
      k := k + 1;
      assert packetData[offset..] == data[|f|..];
    }
    assert frames[k..] == [] by {
      FlattenOfFrames(frames, k);
    }
    assert frames[..k] == frames;
    DecodeAllMeans(decode, frames);
    return Some(decoded);
  }

  lemma SplitOfFrames(frames: seq<seq<byte>>)
    requires AllFrames(frames)
    ensures Split(Flatten(frames)) == Cut(frames, [])
  {
    IncompleteMeansNoFrame([]);
    assert Flatten(frames) + [] == Flatten(frames);
    SplitUnique(Flatten(frames), frames, []);
  }

  /** What one turn of the read loop meets: the closed flag, a failed read, or a read. */
  datatype ReadEvent = Closed | Failed | Data(buf: seq<byte>)

  datatype Exit = Waiting | SawClosed | OpError

  datatype Session<F> = Session(handled: seq<F>, carry: seq<byte>, exit: Exit)

  /** The read loop as a function of what it meets, started with `carry` left over. */
  function Loop<F(!new)>(decode: Decoder<F>, events: seq<ReadEvent>, carry: seq<byte>): Session<F> {
    if events == [] then Session([], carry, Waiting)
    else match events[0]
      case Closed => Session([], carry, SawClosed)
      case Failed => Session([], carry, OpError)
      case Data(buf) =>
        var cut := Split(carry + buf);
        var batch := DecodeAll(decode, cut.frames);
        if batch.None? then Session([], cut.rest, OpError)
        else
          var next := Loop(decode, events[1..], cut.rest);
          next.(handled := batch.value + next.handled)
  }

  /** One read inside the loop, unrolled. */
  lemma LoopUnroll<F(!new)>(decode: Decoder<F>, events: seq<ReadEvent>, i: nat, carry: seq<byte>)
    requires i < |events|
    requires carry == [] || FrameSize(carry).None?
    ensures events[i].Data? ==>
              var cut := Split(carry + events[i].buf);
              var batch := DecodeAll(decode, cut.frames);
              var later := Loop(decode, events[i + 1..], cut.rest);
              Loop(decode, events[i..], carry) ==
              if batch.None? then Session([], cut.rest, OpError) else later.(handled := batch.value + later.handled)
    ensures events[i].Closed? ==> Loop(decode, events[i..], carry) == Session([], carry, SawClosed)
    ensures events[i].Failed? ==> Loop(decode, events[i..], carry) == Session([], carry, OpError)
    ensures events[i] == Data([]) ==> Loop(decode, events[i..], carry) == Loop(decode, events[i + 1..], carry)
  {
    assert events[i..][1..] == events[i + 1..];
    if events[i] == Data([]) {
      assert carry + [] == carry;
      assert Split(carry) == Cut([], carry);
      var later := Loop(decode, events[i + 1..], carry);
      assert [] + later.handled == later.handled;
    }
  }

  lemma LoopEnd<F(!new)>(decode: Decoder<F>, events: seq<ReadEvent>, carry: seq<byte>)
    requires events == []
    ensures Loop(decode, events, carry) == Session([], carry, Waiting)
  {
  }

  lemma NothingToDecode<F(!new)>(decode: Decoder<F>)
    ensures DecodeAll(decode, []) == Some([])
  {
  }

  /** What `Parse` returns for a carry-over and a read, in terms of the split. */
  lemma AfterParse(s: seq<byte>)
    ensures Split(s).rest == [] || FrameSize(Split(s).rest).None?
    ensures Flatten(Split(s).frames) == [] <==> Split(s).frames == []
    ensures Split(Flatten(Split(s).frames)) == Cut(Split(s).frames, [])
  {
    SplitSound(s);
    IncompleteMeansNoFrame(Split(s).rest);
    SplitOfFrames(Split(s).frames);
  }

  /** Where the loop stands before event `i`: what it has handed out and what is still to come make up the session. */
  ghost predicate Standing<F(!new)>(decode: Decoder<F>, events: seq<ReadEvent>, i: nat, carry: seq<byte>, handled: seq<F>) {
    && i <= |events| && (carry == [] || FrameSize(carry).None?)
    && var rest := Loop(decode, events[i..], carry); Loop(decode, events, []) == rest.(handled := handled + rest.handled)
  }

  lemma StandingFirst<F(!new)>(decode: Decoder<F>, events: seq<ReadEvent>)
    ensures Standing(decode, events, 0, [], [])
  {
    assert events[0..] == events;
    var rest := Loop(decode, events, []);
    assert [] + rest.handled == rest.handled;
  }

  /** A failed read, a closed client or no more events: the session is what was handed out so far. */
  lemma StandingLast<F(!new)>(decode: Decoder<F>, events: seq<ReadEvent>, i: nat, carry: seq<byte>, handled: seq<F>)
    requires Standing(decode, events, i, carry, handled)
    ensures i == |events| ==> Loop(decode, events, []) == Session(handled, carry, Waiting)
    ensures i < |events| && events[i].Closed? ==> Loop(decode, events, []) == Session(handled, carry, SawClosed)
    ensures i < |events| && events[i].Failed? ==> Loop(decode, events, []) == Session(handled, carry, OpError)
  {
    if i < |events| {
      LoopUnroll(decode, events, i, carry);
    } else {
      LoopEnd(decode, events[i..], carry);
    }
    hide Loop, FrameSize;
    assert handled + [] == handled;
  }

  lemma StandingEmptyRead<F(!new)>(decode: Decoder<F>, events: seq<ReadEvent>, i: nat, carry: seq<byte>, handled: seq<F>)
    requires Standing(decode, events, i, carry, handled) && i < |events| && events[i] == Data([])
    ensures Standing(decode, events, i + 1, carry, handled)
  {
    LoopUnroll(decode, events, i, carry);
    hide Loop, FrameSize;
  }

  lemma StandingRead<F(!new)>(decode: Decoder<F>, events: seq<ReadEvent>, i: nat, carry: seq<byte>, handled: seq<F>)
    requires Standing(decode, events, i, carry, handled) && i < |events| && events[i].Data?
    ensures var cut := Split(carry + events[i].buf);
            var batch := DecodeAll(decode, cut.frames);
            && (batch.None? ==> Loop(decode, events, []) == Session(handled, cut.rest, OpError))
            && (batch.Some? ==> Standing(decode, events, i + 1, cut.rest, handled + batch.value))
            && (cut.frames == [] ==> Standing(decode, events, i + 1, cut.rest, handled))
  {
    LoopUnroll(decode, events, i, carry);
    NothingToDecode(decode);
    AfterParse(carry + events[i].buf);
    hide Loop, FrameSize, Split, DecodeAll;
    var cut := Split(carry + events[i].buf);
    var batch := DecodeAll(decode, cut.frames);
    if batch.None? {
      assert handled + [] == handled;
    } else {
      var later := Loop(decode, events[i + 1..], cut.rest);
      Regroup(handled, batch.value, later.handled);
      assert cut.frames == [] ==> handled + batch.value == handled;
    }
  }

  /** `readLoop`, with each read and each look at the closed flag supplied by `events`. */
  method ReadLoop<F(!new)>(decode: Decoder<F>, events: seq<ReadEvent>) returns (s: Session<F>)
    requires OneFrame(decode)
    ensures s == Loop(decode, events, [])
  {
    var tmpBuff: seq<byte>, handled: seq<F> := [], [];
    var i := 0;
    StandingFirst(decode, events);
    hide *;
    while i < |events|
      invariant 0 <= i <= |events|
      invariant Standing(decode, events, i, tmpBuff, handled)
    {
      match events[i]
      case Closed =>
        StandingLast(decode, events, i, tmpBuff, handled);
        return Session(handled, tmpBuff, SawClosed);
      case Failed =>
        StandingLast(decode, events, i, tmpBuff, handled);
        return Session(handled, tmpBuff, OpError);
      case Data(buf) =>
        if |buf| == 0 {
          StandingEmptyRead(decode, events, i, tmpBuff, handled);
          i := i + 1;
          continue;
        }
        StandingRead(decode, events, i, tmpBuff, handled);
        AfterParse(tmpBuff + buf);
        var packetData, remaining := Parse(tmpBuff + buf);
        tmpBuff := remaining;
        i := i + 1;
        if |packetData| > 0 {
          var batch := HandlePacketDatas(decode, packetData);
          if batch.None? {
            return Session(handled, tmpBuff, OpError);
          }
          handled := handled + batch.value;
        }
    }
    StandingLast(decode, events, i, tmpBuff, handled);
    return Session(handled, tmpBuff, Waiting);
  }

  function Reads(chunks: seq<seq<byte>>): seq<ReadEvent> {
    seq(|chunks|, i requires 0 <= i < |chunks| => Data(chunks[i]))
  }

  /** What the handler receives of a stream cut into `chunks`. */
  function Receive<F(!new)>(decode: Decoder<F>, chunks: seq<seq<byte>>): Session<F> {
    Loop(decode, Reads(chunks), [])
  }

  /** One read, and then the rest of the chunks. */
  lemma LoopStep<F(!new)>(decode: Decoder<F>, chunks: seq<seq<byte>>, carry: seq<byte>)
    requires chunks != []
    ensures var cut := Split(carry + chunks[0]);
            var batch := DecodeAll(decode, cut.frames);
            var later := Loop(decode, Reads(chunks[1..]), cut.rest);
            Loop(decode, Reads(chunks), carry) ==
            if batch.None? then Session([], cut.rest, OpError) else later.(handled := batch.value + later.handled)
  {
    hide Split, DecodeAll;
    assert Reads(chunks)[0] == Data(chunks[0]) && Reads(chunks)[1..] == Reads(chunks[1..]);
  }

  /** The stream as the read loop sees it after the first chunk. */
  lemma StreamStep(chunks: seq<seq<byte>>, carry: seq<byte>)
    requires chunks != []
    ensures var cut := Split(carry + chunks[0]);
            var whole := Split(carry + Flatten(chunks));
            var later := Split(cut.rest + Flatten(chunks[1..]));
            whole.frames == cut.frames + later.frames && whole.rest == later.rest
    ensures AllFrames(Split(carry + chunks[0]).frames)
    ensures Split(carry + chunks[0]).rest == [] || FrameSize(Split(carry + chunks[0]).rest).None?
  {
    hide Split, FrameSize;
    var cut := Split(carry + chunks[0]);
    SplitSound(carry + chunks[0]);
    IncompleteMeansNoFrame(cut.rest);
    assert carry + Flatten(chunks) == (carry + chunks[0]) + Flatten(chunks[1..]);
    SplitResumes(carry + chunks[0], Flatten(chunks[1..]));
  }

  /**
   Chunk invariance: however a stream of decodable frames is cut, the handler gets each frame once,
   in order, and the carry-over is the incomplete end of the stream.
   */
  lemma ChunkInvariance<F(!new)>(decode: Decoder<F>, chunks: seq<seq<byte>>)
    ensures var whole := Split(Flatten(chunks));
            var frames := DecodeAll(decode, whole.frames);
            frames.Some? ==> Receive(decode, chunks) == Session(frames.value, whole.rest, Waiting)
  {
    LoopInvariance(decode, chunks, []);
    assert [] + Flatten(chunks) == Flatten(chunks);
  }

  lemma {:induction false} LoopInvariance<F(!new)>(decode: Decoder<F>, chunks: seq<seq<byte>>, carry: seq<byte>)
    requires carry == [] || FrameSize(carry).None?
    ensures var whole := Split(carry + Flatten(chunks));
            var frames := DecodeAll(decode, whole.frames);
            frames.Some? ==> Loop(decode, Reads(chunks), carry) == Session(frames.value, whole.rest, Waiting)
  {
    if chunks == [] {
      assert carry + Flatten(chunks) == carry;
    } else {
      hide *;
      var cut := Split(carry + chunks[0]);
      StreamStep(chunks, carry);
      LoopStep(decode, chunks, carry);
      LoopInvariance(decode, chunks[1..], cut.rest);
      DecodeAllConcat(decode, cut.frames, Split(cut.rest + Flatten(chunks[1..])).frames);
    }
  }

  /** Reads, and then a failed read or a closed client: the session ends there, with everything before it handed out. */
  lemma {:induction false} SessionEnds<F(!new)>(
    decode: Decoder<F>, chunks: seq<seq<byte>>, carry: seq<byte>, stop: ReadEvent, more: seq<ReadEvent>)
    requires !stop.Data?
    ensures var s := Loop(decode, Reads(chunks), carry);
            Loop(decode, Reads(chunks) + [stop] + more, carry) ==
            if s.exit == OpError then s else s.(exit := if stop == Closed then SawClosed else OpError)
  {
    hide Split, DecodeAll;
    var events := Reads(chunks) + [stop] + more;
    if chunks == [] {
      assert events[0] == stop;
    } else {
      var cut := Split(carry + chunks[0]);
      LoopStep(decode, chunks, carry);
      SessionEnds(decode, chunks[1..], cut.rest, stop, more);
      assert events[0] == Data(chunks[0]);
      assert events[1..] == Reads(chunks[1..]) + [stop] + more;
    }
  }

  lemma EmptyStream(carry: seq<byte>)
    requires carry == [] || FrameSize(carry).None?
    ensures Split(carry + Flatten([])).frames == []
  {
    assert carry + [] == carry;
  }

  /**
   With an undecodable frame the loop ends in the error branch, and what was handed out before it
   is a run of whole batches that ends at or before the bad frame.
   */
  lemma {:induction false} BadFrameStops<F(!new)>(decode: Decoder<F>, chunks: seq<seq<byte>>, carry: seq<byte>)
    returns (n: nat)
    requires carry == [] || FrameSize(carry).None?
    requires DecodeAll(decode, Split(carry + Flatten(chunks)).frames).None?
    ensures var fs := Split(carry + Flatten(chunks)).frames;
            var s := Loop(decode, Reads(chunks), carry);
            && s.exit == OpError
            && n <= GoodPrefix(decode, fs) < |fs|
            && DecodeAll(decode, fs[..n]) == Some(s.handled)
  {
    hide *;
    var fs := Split(carry + Flatten(chunks)).frames;
    GoodPrefixBound(decode, fs);
    NothingToDecode(decode);
    EmptyStream(carry);
    var cut := Split(carry + chunks[0]);
    StreamStep(chunks, carry);
    LoopStep(decode, chunks, carry);
    var later := Split(cut.rest + Flatten(chunks[1..])).frames;
    DecodeAllConcat(decode, cut.frames, later);
    GoodPrefixBound(decode, cut.frames);
    if DecodeAll(decode, cut.frames).None? {
      n := 0;
      assert fs[..0] == [];
    } else {
      var m := BadFrameStops(decode, chunks[1..], cut.rest);
      n := |cut.frames| + m;
      assert fs[..n] == cut.frames + later[..m];
      DecodeAllConcat(decode, cut.frames, later[..m]);
    }
  }

  /**
   Exactly which read ends the loop: the first that completes a frame that does not decode. What was handed out are the
   frames completed by the reads before it, and the bytes behind the completed frames are left over.
   */
  lemma {:induction false} BadReadEndsLoop<F(!new)>(decode: Decoder<F>, chunks: seq<seq<byte>>, carry: seq<byte>)
    returns (k: nat)
    requires carry == [] || FrameSize(carry).None?
    requires DecodeAll(decode, Split(carry + Flatten(chunks)).frames).None?
    ensures k < |chunks|
    ensures var before, with := Split(carry + Flatten(chunks[..k])), Split(carry + Flatten(chunks[..k + 1]));
            && DecodeAll(decode, before.frames).Some? && DecodeAll(decode, with.frames).None?
            && Loop(decode, Reads(chunks), carry) == Session(DecodeAll(decode, before.frames).value, with.rest, OpError)
  {
    hide *;
    NothingToDecode(decode);
    EmptyStream(carry);
    var cut := Split(carry + chunks[0]);
    StreamStep(chunks, carry);
    LoopStep(decode, chunks, carry);
    DecodeAllConcat(decode, cut.frames, Split(cut.rest + Flatten(chunks[1..])).frames);
    if DecodeAll(decode, cut.frames).None? {
      k := 0;
      assert chunks[..0] == [] && chunks[..1] == [chunks[0]];
      FlattenSingle(chunks[0]);
    } else {
      var m := BadReadEndsLoop(decode, chunks[1..], cut.rest);
      k := m + 1;
      FrontStep(decode, chunks, carry, m);
      FrontStep(decode, chunks, carry, m + 1);
    }
  }

  /** The front of a stream, seen from behind the first read. */
  lemma FrontStep<F(!new)>(decode: Decoder<F>, chunks: seq<seq<byte>>, carry: seq<byte>, m: nat)
    requires m < |chunks| && DecodeAll(decode, Split(carry + chunks[0]).frames).Some?
    ensures var cut := Split(carry + chunks[0]);
            var whole, later := Split(carry + Flatten(chunks[..m + 1])), Split(cut.rest + Flatten(chunks[1..][..m]));
            && whole.rest == later.rest
            && (DecodeAll(decode, whole.frames).Some? <==> DecodeAll(decode, later.frames).Some?)
            && (DecodeAll(decode, later.frames).Some? ==>
                  DecodeAll(decode, whole.frames).value ==
                  DecodeAll(decode, cut.frames).value + DecodeAll(decode, later.frames).value)
  {
    hide *;
    var front := chunks[..m + 1];
    assert front[0] == chunks[0] && front[1..] == chunks[1..][..m];
    StreamStep(front, carry);
    DecodeAllConcat(decode, Split(carry + chunks[0]).frames, Split(Split(carry + chunks[0]).rest + Flatten(front[1..])).frames);
  }

  lemma SplitOneFrame(f: seq<byte>)
    requires IsFrame(f)
    ensures [] + f == f && Split(f) == Cut([f], [])
  {
    FlattenSingle(f);
    SplitOfFrames([f]);
  }

  /** A stream that arrives frame by frame is handed out up to the bad frame. */
  lemma {:induction false} FrameByFrame<F(!new)>(decode: Decoder<F>, frames: seq<seq<byte>>)
    requires AllFrames(frames)
    ensures |Receive(decode, frames).handled| == GoodPrefix(decode, frames)
  {
    if frames != [] {
      var f := frames[0];
      SplitOneFrame(f);
      LoopStep(decode, frames, []);
      GoodTail(decode, [f], 0);
      FrameByFrame(decode, frames[1..]);
    }
  }

  /** All cuttings of a stream hand the same packets to the handler. */
  ghost predicate CutIndependent<F(!new)>(decode: Decoder<F>, s: seq<byte>) {
    forall chunks: seq<seq<byte>> :: Flatten(chunks) == s ==>
      Receive(decode, chunks).handled == Receive(decode, [s]).handled
  }

  /**
   Exactly when dispatch is independent of the cutting: every frame decodes, or already the first does not.
   The batch is decoded before any of it is handed out, so good frames in front of a bad one are lost
   when they arrive together with it and kept when they arrive before it.
   */
  lemma CutIndependentExactly<F(!new)>(decode: Decoder<F>, s: seq<byte>)
    ensures var fs := Split(s).frames;
            CutIndependent(decode, s) <==> GoodPrefix(decode, fs) == |fs| || GoodPrefix(decode, fs) == 0
  {
    var fs := Split(s).frames;
    GoodPrefixBound(decode, fs);
    if GoodPrefix(decode, fs) == |fs| || GoodPrefix(decode, fs) == 0 {
      forall chunks: seq<seq<byte>> | Flatten(chunks) == s
        ensures Receive(decode, chunks).handled == Receive(decode, [s]).handled
      {
        FlattenSingle(s);
        ReceiveSame(decode, chunks, s);
        ReceiveSame(decode, [s], s);
      }
    } else {
      SplitSound(s);
      var frameByFrame := fs + [Split(s).rest];
      FlattenConcat(fs, [Split(s).rest]);
      FlattenSingle(Split(s).rest);
      FrameByFrame(decode, fs);
      TrailingReadAddsNothing(decode, fs, Split(s).rest, []);
      assert Receive(decode, [s]).handled == [] by {
        assert Reads([s])[0] == Data(s) && [] + s == s;
      }
      assert Flatten(frameByFrame) == s;
      assert Receive(decode, frameByFrame).handled != Receive(decode, [s]).handled;
    }
  }

  lemma ReceiveSame<F(!new)>(decode: Decoder<F>, chunks: seq<seq<byte>>, s: seq<byte>)
    requires Flatten(chunks) == s
    ensures var fs := Split(s).frames;
            && (GoodPrefix(decode, fs) == |fs| ==> DecodeAll(decode, fs) == Some(Receive(decode, chunks).handled))
            && (GoodPrefix(decode, fs) == 0 < |fs| ==> Receive(decode, chunks).handled == [])
  {
    var fs := Split(s).frames;
    GoodPrefixBound(decode, fs);
    ChunkInvariance(decode, chunks);
    if GoodPrefix(decode, fs) == 0 < |fs| {
      assert [] + Flatten(chunks) == s;
      var n := BadFrameStops(decode, chunks, []);
    }
  }

  lemma {:induction false} TrailingReadAddsNothing<F(!new)>(
    decode: Decoder<F>, frames: seq<seq<byte>>, last: seq<byte>, carry: seq<byte>)
    requires carry == [] && AllFrames(frames)
    requires DecodeAll(decode, frames).None?
    ensures Loop(decode, Reads(frames + [last]), carry) == Loop(decode, Reads(frames), carry)
  {
    var f := frames[0];
    var all := frames + [last];
    SplitOneFrame(f);
    assert all[1..] == frames[1..] + [last];
    LoopStep(decode, all, []);
    LoopStep(decode, frames, []);
    if decode(f).Some? {
      TrailingReadAddsNothing(decode, frames[1..], last, []);
    }
  }
}
