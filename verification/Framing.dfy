/**
 The frame grammar of the byte stream, and the two loops that cut a buffer into whole frames.
 */
module Framing {
  import opened Prelude
  import opened Length

  /** The two frame types that consist of their first byte alone; their numbers belong to the protocol library. */
  const PING: nat
  const PONG: nat

  predicate SingleByte(b: byte) { b / 16 == PING || b / 16 == PONG }

  /** A complete frame: one byte, or a type byte, a length field and as many bytes as the field says. */
  ghost predicate IsFrame(f: seq<byte>) {
    && f != []
    && if SingleByte(f[0]) then |f| == 1
       else exists k :: FieldCoversFrame(f, k)
  }

  predicate FieldCoversFrame(f: seq<byte>, k: int) {
    1 <= k < |f| && IsField(f[1..1 + k]) && |f| == 1 + k + Value(f[1..1 + k])
  }

  ghost predicate AllFrames(fs: seq<seq<byte>>) { forall i :: 0 <= i < |fs| ==> IsFrame(fs[i]) }

  ghost predicate FrameAtFront(s: seq<byte>, n: int) { 0 < n <= |s| && IsFrame(s[..n]) }

  /** A buffer no prefix of which is a complete frame. */
  ghost predicate Incomplete(s: seq<byte>) { forall n :: !FrameAtFront(s, n) }

  /** How many bytes the frame at the front of the buffer takes, if all of them are there. */
  function FrameSize(s: seq<byte>): (r: Option<nat>)
    requires s != []
    ensures r.Some? ==> 0 < r.value <= |s|
  {
    if SingleByte(s[0]) then Some(1)
    else
      var field := FieldSize(s[1..]);
      if field.None? then None
      else
        FieldAtFront(s[1..], field.value);
        var end := 1 + field.value + Value(s[1..][..field.value]);
        if |s| >= end then Some(end) else None
  }

  datatype Cut = Cut(frames: seq<seq<byte>>, rest: seq<byte>)

  /** Cuts whole frames off the front as long as there is one. */
  function Split(s: seq<byte>): Cut {
    if s == [] || FrameSize(s).None? then Cut([], s)
    else
      var n := FrameSize(s).value;
      var tail := Split(s[n..]);
      Cut([s[..n]] + tail.frames, tail.rest)
  }

  /** A PING or PONG byte is a frame by itself, in front of anything. */
  lemma SingleBytesAreFrames(b: byte, more: seq<byte>)
    requires b / 16 == PING || b / 16 == PONG
    ensures IsFrame([b]) && FrameSize([b] + more) == Some(1)
    ensures Split([b] + more) == Cut([[b]] + Split(more).frames, Split(more).rest)
  {
    FrameIsItsOwnSize([b], more);
    SplitFirst([b] + more, 1);
    assert ([b] + more)[..1] == [b] && ([b] + more)[1..] == more;
  }

  /** Any other frame is a type byte, a length field of one to four bytes, and as many bytes as its digits say. */
  lemma FrameLayout(f: seq<byte>)
    requires f != [] && f[0] / 16 != PING && f[0] / 16 != PONG
    ensures IsFrame(f) ==> |f| >= 2
    ensures IsFrame(f) <==> exists k :: LaidOut(f, k)
  {
    if IsFrame(f) {
      var k :| FieldCoversFrame(f, k);
      var field := f[1..1 + k];
      ValueDigits(field);
      assert forall i :: 1 <= i <= k ==> f[i] == field[i - 1];
      assert LaidOut(f, k);
    }
    if k :| LaidOut(f, k) {
      var field := f[1..1 + k];
      ValueDigits(field);
      assert FieldCoversFrame(f, k);
    }
  }

  predicate LaidOut(f: seq<byte>, k: int) {
    && 1 <= k <= 4 && k < |f| && (forall i :: 1 <= i < k ==> f[i] >= 128) && (f[k] < 128 || k == 4)
    && |f| == 1 + k + Low(f[1]) + (if k > 1 then Low(f[2]) * 128 else 0)
              + (if k > 2 then Low(f[3]) * 16384 else 0) + (if k > 3 then Low(f[4]) * 2097152 else 0)
  }

  lemma FieldInPrefix(s: seq<byte>, n: nat, k: nat)
    requires 1 + k <= n <= |s|
    ensures s[..n][1..1 + k] == s[1..][..k]
  {
  }

  /** At most one prefix of a buffer is a frame, and `FrameSize` finds it. */
  lemma FrameSizeExact(s: seq<byte>, n: nat)
    requires s != []
    ensures FrameSize(s) == Some(n) <==> FrameAtFront(s, n)
  {
    if !SingleByte(s[0]) {
      var body := s[1..];
      if FrameSize(s) == Some(n) {
        var k := FieldSize(body).value;
        FieldAtFront(body, k);
        FieldInPrefix(s, n, k);
        assert FieldCoversFrame(s[..n], k);
      }
      if FrameAtFront(s, n) {
        var f := s[..n];
        var k :| FieldCoversFrame(f, k);
        FieldInPrefix(s, n, k);
        FieldAtFront(body, k);
      }
    }
  }

  lemma FrameIsItsOwnSize(f: seq<byte>, more: seq<byte>)
    requires IsFrame(f)
    ensures FrameSize(f + more) == Some(|f|)
  {
    assert (f + more)[..|f|] == f;
    FrameSizeExact(f + more, |f|);
  }

  /** A frame that is complete stays the same frame when more bytes arrive. */
  lemma FrameStable(s: seq<byte>, more: seq<byte>)
    requires s != [] && FrameSize(s).Some?
    ensures FrameSize(s + more) == FrameSize(s)
  {
    var n := FrameSize(s).value;
    FrameSizeExact(s, n);
    assert (s + more)[..n] == s[..n];
    FrameSizeExact(s + more, n);
  }

  lemma IncompleteMeansNoFrame(s: seq<byte>)
    ensures Incomplete(s) <==> s == [] || FrameSize(s).None?
  {
    if s != [] {
      forall n: nat ensures FrameAtFront(s, n) <==> FrameSize(s) == Some(n) {
        FrameSizeExact(s, n);
      }
      if FrameSize(s).Some? {
        assert FrameAtFront(s, FrameSize(s).value);
      }
    }
  }

  /** The split of a buffer that begins with a whole frame. */
  lemma SplitFirst(s: seq<byte>, n: nat)
    requires s != [] && FrameSize(s) == Some(n)
    ensures Split(s) == Cut([s[..n]] + Split(s[n..]).frames, Split(s[n..]).rest)
    ensures Flatten(Split(s).frames) == s[..n] + Flatten(Split(s[n..]).frames)
    ensures n > 0 && IsFrame(s[..n]) && s == s[..n] + s[n..]
  {
    FrameSizeExact(s, n);
    SplitUnroll(s, n);
    FrontFacts(s, n);
    hide *;
    FlattenCons(s[..n], Split(s[n..]).frames);
  }

  lemma FrontFacts(s: seq<byte>, n: nat)
    requires FrameAtFront(s, n)
    ensures 0 < n <= |s| && IsFrame(s[..n]) && s == s[..n] + s[n..]
  {
    hide IsFrame;
  }

  lemma SplitUnroll(s: seq<byte>, n: nat)
    requires s != [] && FrameSize(s) == Some(n)
    ensures Split(s) == Cut([s[..n]] + Split(s[n..]).frames, Split(s[n..]).rest)
  {
    hide FrameSize;
  }

  lemma SplitNone(s: seq<byte>)
    requires s == [] || FrameSize(s).None?
    ensures Split(s) == Cut([], s) && [] + s == s
  {
  }

  /** Splitting loses and invents nothing: whole frames, then bytes that hold no whole frame. */
  lemma {:induction false} SplitSound(s: seq<byte>)
    ensures Flatten(Split(s).frames) + Split(s).rest == s
    ensures AllFrames(Split(s).frames)
    ensures Incomplete(Split(s).rest)
    ensures Flatten(Split(s).frames) == [] <==> Split(s).frames == []
  {
    IncompleteMeansNoFrame(s);
    hide Split, FrameSize, IsFrame, Incomplete;
    if s != [] && FrameSize(s).Some? {
      var n := FrameSize(s).value;
      SplitFirst(s, n);
      SplitSound(s[n..]);
    } else {
      SplitNone(s);
    }
  }

  /** The grammar is unambiguous: any way to read `s` as frames followed by an incomplete rest is the split. */
  lemma {:induction false} SplitUnique(s: seq<byte>, frames: seq<seq<byte>>, rest: seq<byte>)
    requires s == Flatten(frames) + rest
    requires AllFrames(frames)
    requires Incomplete(rest)
    ensures Split(s) == Cut(frames, rest)
  {
    if frames == [] {
      IncompleteMeansNoFrame(rest);
      assert s == rest;
    } else {
      var f, tail := frames[0], Flatten(frames[1..]) + rest;
      assert s == f + tail;
      FrameIsItsOwnSize(f, tail);
      assert s[..|f|] == f && s[|f|..] == tail;
      SplitUnique(tail, frames[1..], rest);
    }
  }

  lemma RegroupCuts<T>(a: seq<T>, f1: seq<T>, r1: seq<T>, b: seq<T>, f2: seq<T>, r2: seq<T>)
    requires a == f1 + r1 && r1 + b == f2 + r2
    ensures a + b == (f1 + f2) + r2
  {
    assert a + b == f1 + (r1 + b);
  }

  /** The law behind the carry-over buffer: splitting can stop anywhere and resume on what was left over. */
  lemma SplitResumes(a: seq<byte>, b: seq<byte>)
    ensures Split(a + b).frames == Split(a).frames + Split(Split(a).rest + b).frames
    ensures Split(a + b).rest == Split(Split(a).rest + b).rest
  {
    var Cut(fs1, r1) := Split(a);
    var Cut(fs2, r2) := Split(r1 + b);
    SplitSound(a);
    SplitSound(r1 + b);
    FlattenConcat(fs1, fs2);
    RegroupCuts(a, Flatten(fs1), r1, b, Flatten(fs2), r2);
    SplitUnique(a + b, fs1 + fs2, r2);
  }

  /** The bytes before `offset` are whole frames, and the rest of the buffer is still to be cut. */
  ghost predicate CutUpTo(buff: seq<byte>, offset: nat) {
    && offset <= |buff|
    && Flatten(Split(buff).frames) == buff[..offset] + Flatten(Split(buff[offset..]).frames)
    && Split(buff).rest == Split(buff[offset..]).rest
  }

  lemma CutOne(buff: seq<byte>, offset: nat, n: nat)
    requires CutUpTo(buff, offset) && offset < |buff| && FrameSize(buff[offset..]) == Some(n)
    ensures CutUpTo(buff, offset + n) && offset + n <= |buff| && buff[..offset + n] == buff[..offset] + buff[offset..offset + n]
  {
    hide Split, FrameSize, Flatten;
    var s := buff[offset..];
    SplitFirst(s, n);
    assert s[..n] == buff[offset..offset + n] && s[n..] == buff[offset + n..];
    assert buff[..offset] + buff[offset..offset + n] == buff[..offset + n];
  }

  lemma CutStart(buff: seq<byte>)
    ensures CutUpTo(buff, 0) && (buff == [] ==> Split(buff) == Cut([], []))
  {
    assert buff[..0] == [] && buff[0..] == buff;
  }

  lemma CutEnd(buff: seq<byte>, offset: nat)
    requires offset <= |buff| && CutUpTo(buff, offset) && (offset < |buff| ==> FrameSize(buff[offset..]).None?)
    ensures Flatten(Split(buff).frames) == buff[..offset] && Split(buff).rest == buff[offset..]
    ensures buff[..offset] + buff[offset..] == buff
  {
    assert Split(buff[offset..]) == Cut([], buff[offset..]);
  }

  /** What the decoded length says about the frame at `offset`. */
  lemma SizeAt(buff: seq<byte>, offset: nat)
    requires offset < |buff|
    ensures var field := FieldSize(buff[offset + 1..]);
            if SingleByte(buff[offset]) then FrameSize(buff[offset..]) == Some(1)
            else if field.None? then FrameSize(buff[offset..]).None?
            else
              && field.value <= |buff[offset + 1..]|
              && var n := 1 + field.value + Value(buff[offset + 1..][..field.value]);
              FrameSize(buff[offset..]) == if |buff| >= offset + n then Some(n) else None
  {
    assert buff[offset..][1..] == buff[offset + 1..];
    var field := FieldSize(buff[offset + 1..]);
    if field.Some? {
      FieldAtFront(buff[offset + 1..], field.value);
    }
  }

  /** The framers hand out a PING or PONG byte at the front. */
  lemma TakesSingleByte(buff: seq<byte>)
    ensures buff != [] && (buff[0] / 16 == PING || buff[0] / 16 == PONG) ==>
              var whole := Flatten(Split(buff).frames); whole != [] && whole[0] == buff[0] && |Split(buff).rest| < |buff|
  {
    if buff != [] && (buff[0] / 16 == PING || buff[0] / 16 == PONG) {
      SingleBytesAreFrames(buff[0], buff[1..]);
      assert buff == [buff[0]] + buff[1..];
      SplitSound(buff);
      var cut := Split(buff);
      assert Flatten(cut.frames) == cut.frames[0] + Flatten(cut.frames[1..]);
    }
  }

  /** The framer of the read loop: it copies the frames it finds and cuts the rest by the length of the copy. */
  method Parse(buff: seq<byte>) returns (packetData: seq<byte>, remaining: seq<byte>)
    ensures packetData == Flatten(Split(buff).frames)
    ensures remaining == Split(buff).rest
    ensures packetData + remaining == buff
    ensures buff != [] && (buff[0] / 16 == PING || buff[0] / 16 == PONG) ==> packetData != [] && packetData[0] == buff[0]
    ensures |buff| == 1 && (buff[0] / 16 == PING || buff[0] / 16 == PONG) ==> packetData == buff && remaining == []
  {
    TakesSingleByte(buff);
    hide *;
    CutStart(buff);
    if |buff| == 0 {
      CutEnd(buff, 0);
      return [], [];
    }
    var offset := 0;
    packetData := [];
    while |buff| > offset
      invariant offset <= |buff| && CutUpTo(buff, offset)
      invariant packetData == buff[..offset]
      decreases |buff| - offset
    {
      SizeAt(buff, offset);
      if SingleByte(buff[offset]) {
        CutOne(buff, offset, 1);
        packetData := packetData + [buff[offset]];
        offset := offset + 1;
        continue;
      }
      var reminLen, readSize, has := DecodeLength(buff[offset + 1..]);
      if !has {
        break;
      }
      FieldAtFront(buff[offset + 1..], readSize);
      var dataStart := offset;
      var dataEnd := offset + readSize + reminLen + 1;
      if |buff| >= dataEnd {
        var data := buff[dataStart..dataEnd];
        CutOne(buff, offset, dataEnd - offset);
        packetData := packetData + data;
        offset := dataEnd;
        continue;
      } else {
        break;
      }
    }
    CutEnd(buff, offset);
    if |packetData| > 0 {
      return packetData, buff[|packetData|..];
    }
    return [], buff;
  }

  /** The framer that slices: it keeps the offset only, and agrees with `Parse` on every buffer. */
  method GnetUnpacket(buff: seq<byte>) returns (packetData: seq<byte>, remaining: seq<byte>)
    ensures packetData == Flatten(Split(buff).frames)
    ensures remaining == Split(buff).rest
    ensures packetData + remaining == buff
    ensures buff != [] && (buff[0] / 16 == PING || buff[0] / 16 == PONG) ==> packetData != [] && packetData[0] == buff[0]
    ensures |buff| == 1 && (buff[0] / 16 == PING || buff[0] / 16 == PONG) ==> packetData == buff && remaining == []
  {
    TakesSingleByte(buff);
    hide *;
    CutStart(buff);
    if |buff| <= 0 {
      CutEnd(buff, 0);
      return [], [];
    }
    var offset := 0;
    while |buff| > offset
      invariant offset <= |buff| && CutUpTo(buff, offset)
      decreases |buff| - offset
    {
      SizeAt(buff, offset);
      if SingleByte(buff[offset]) {
        CutOne(buff, offset, 1);
        offset := offset + 1;
        continue;
      }
      var reminLen, readSize, has := DecodeLength(buff[offset + 1..]);
      if !has {
        break;
      }
      FieldAtFront(buff[offset + 1..], readSize);
      var dataEnd := offset + readSize + reminLen + 1;
      if |buff| >= dataEnd {
        CutOne(buff, offset, dataEnd - offset);
        offset := dataEnd;
        continue;
      } else {
        break;
      }
    }
    CutEnd(buff, offset);
    if offset > 0 {
      return buff[..offset], buff[offset..];
    }
    return [], buff;
  }
}
