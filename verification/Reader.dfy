/**
 The reader in front of the connection: one reused buffer with a window of unread bytes,
 read as chunks by `Read` and as delimited strings by `ReadString`.
 */
module Reader {
  import opened Prelude

  /** What the connection still has to deliver: a packet of bytes, or bytes that come with an error. */
  datatype Delivery = Bytes(data: seq<byte>) | Broken(data: seq<byte>)

  function Stream(script: seq<Delivery>): seq<byte> {
    if script == [] then [] else script[0].data + Stream(script[1..])
  }

  /** Errors that come alone: a read that fails brings no bytes. */
  ghost predicate QuietErrors(script: seq<Delivery>) {
    forall i :: 0 <= i < |script| && script[i].Broken? ==> script[i].data == []
  }

  /** What reads of at most `cap` bytes deliver before the first one that fails. */
  ghost function Delivered(script: seq<Delivery>, cap: nat): seq<byte>
    requires cap > 0
    decreases |script| + |Stream(script)|
  {
    if script == [] then []
    else
      var d, rest := script[0].data, script[1..];
      if |d| > cap then
        assert Stream([script[0].(data := d[cap..])] + rest) == d[cap..] + Stream(rest);
        d[..cap] + Delivered([script[0].(data := d[cap..])] + rest, cap)
      else if script[0].Broken? then []
      else d + Delivered(rest, cap)
  }

  class Connection {
    var script: seq<Delivery>

    /** `io.Reader`: at most `buf.Length` bytes, in order; an exhausted script is end of file. */
    method Read(buf: array<byte>) returns (n: nat, failed: bool)
      requires buf.Length > 0
      modifies this, buf
      ensures n <= buf.Length
      ensures buf[..n] + Stream(script) == old(Stream(script))
      ensures old(script) == [] ==> failed && n == 0 && script == []
      ensures old(script) != [] ==>
                var d := old(script)[0].data;
                && n == (if |d| <= buf.Length then |d| else buf.Length) && buf[..n] == d[..n]
                && (failed <==> old(script)[0].Broken? && |d| <= buf.Length)
      ensures if failed then old(Delivered(script, buf.Length)) == []
              else buf[..n] + Delivered(script, buf.Length) == old(Delivered(script, buf.Length))
      ensures old(QuietErrors(script)) ==> QuietErrors(script) && (failed ==> n == 0)
      ensures !failed ==> |script| + |Stream(script)| < old(|script| + |Stream(script)|)
    {
      if script == [] {
        return 0, true;
      }
      var d := script[0].data;
      n := Min(|d|, buf.Length);
      forall i | 0 <= i < n { buf[i] := d[i]; }
      assert buf[..n] == d[..n];
      ghost var tail := Stream(script[1..]);
      if n == |d| {
        failed := script[0].Broken?;
        script := script[1..];
        assert d[..n] == d;
      } else {
        failed := false;
        script := [script[0].(data := d[n..])] + script[1..];
        assert d[..n] + (d[n..] + tail) == d + tail;
      }
    }
  }

  class LimReader {
    var r: Connection
    var buf: array<byte>
    var off: int
    var n: int

    ghost predicate Valid()
      reads this
    {
      buf.Length > 0 && -1 <= off && 0 <= n <= buf.Length && (off >= 0 ==> off <= n)
    }

    /** The bytes read from the connection and not yet handed to the caller. */
    ghost function Unread(): seq<byte>
      reads this, buf
      requires Valid()
    {
      if off >= 0 then buf[off..n] else []
    }

    /** Everything a caller will ever see. */
    ghost function Ahead(): seq<byte>
      reads this, buf, r
      requires Valid()
    {
      Unread() + Stream(r.script)
    }

    constructor (r: Connection, bufSize: nat)
      requires bufSize > 0
      ensures Valid() && this.r == r && off == -1 && Unread() == [] && fresh(buf) && buf.Length == bufSize
    {
      this.r := r;
      buf := new byte[bufSize];
      off, n := -1, 0;
    }

    /** Hands out the unread window if there is one, and the next read otherwise. */
    method Read() returns (data: seq<byte>, failed: bool)
      requires Valid()
      modifies this, buf, r
      ensures Valid() && r == old(r) && buf == old(buf)
      ensures data + Ahead() == old(Ahead())
      ensures Unread() == [] && off == -1
      ensures old(off) >= 0 ==> data == old(Unread()) && !failed && r.script == old(r.script)
      ensures old(off) < 0 && old(r.script) == [] ==> failed && data == []
      ensures old(off) < 0 && old(r.script) != [] ==>
                var d := old(r.script)[0].data;
                && data == (if |d| <= buf.Length then d else d[..buf.Length])
                && (failed <==> old(r.script)[0].Broken? && |d| <= buf.Length)
      ensures old(off) < 0 ==>
                if failed then old(Delivered(r.script, buf.Length)) == []
                else data + Delivered(r.script, buf.Length) == old(Delivered(r.script, buf.Length))
      ensures old(QuietErrors(r.script)) ==> QuietErrors(r.script) && (failed ==> data == [])
      ensures old(off) < 0 && !failed ==> |r.script| + |Stream(r.script)| < old(|r.script| + |Stream(r.script)|)
      ensures old(off) < 0 ==> data == buf[..n]
    {
      if off >= 0 {
        var start := off;
        off := -1;
        return buf[start..n], false;
      }
      n, failed := r.Read(buf);
      data := buf[..n];
    }

    /**
     Reads up to and including the first delimiter. On success no byte is lost, repeated or reordered.
     On a failed read the call returns what it had, and drops whatever bytes came with the error:
     no byte is ever dropped when failing reads bring none. It fails exactly if a read fails before the
     delimiter has come.
     */
    method ReadString(delim: byte) returns (s: seq<byte>, failed: bool, ghost dropped: seq<byte>)
      requires Valid()
      modifies this, buf, r
      ensures Valid() && r == old(r) && buf == old(buf)
      ensures s + dropped + Ahead() == old(Ahead())
      ensures !failed ==> s != [] && s[|s| - 1] == delim && delim !in s[..|s| - 1] && dropped == []
      ensures failed ==> delim !in s && Unread() == []
      ensures !failed <==> delim in old(Unread() + Delivered(r.script, buf.Length))
      ensures old(QuietErrors(r.script)) ==> dropped == []
    {
      s := [];
      ghost var all, sure := Ahead(), Unread() + Delivered(r.script, buf.Length);
      hide *;
      Regroup(s, [], sure);
      Regroup(s, [], Ahead());
      while true
        invariant Valid() && r == old(r) && buf == old(buf)
        invariant s + Ahead() == all && delim !in s
        invariant buf.Length > 0 && s + (Unread() + Delivered(r.script, buf.Length)) == sure
        invariant old(QuietErrors(r.script)) ==> QuietErrors(r.script)
        decreases |r.script| + |Stream(r.script)|, if off >= 0 then 1 else 0
      {
        if off >= 0 {
          var part, found := TakeBuffered(delim);
          Regroup(s, part, Ahead());
          Regroup(s, part, Unread() + Delivered(r.script, buf.Length));
          LastOf(s, part);
          s := s + part;
          if found {
            Regroup(s, [], Ahead());
            return s, false, [];
          }
        }
        var data, err := Refill();
        if err {
          Regroup(s, data, Ahead());
          Regroup(s, [], []);
          return s, true, data;
        }
      }
    }

    /** `Read`, whose bytes become the unread window again when it succeeds. */
    method Refill() returns (data: seq<byte>, failed: bool)
      requires Valid() && off < 0
      modifies this, buf, r
      ensures Valid() && r == old(r) && buf == old(buf)
      ensures failed ==> data + Ahead() == old(Ahead()) && Unread() == []
      ensures if failed then old(Unread() + Delivered(r.script, buf.Length)) == []
              else Unread() + Delivered(r.script, buf.Length) == old(Unread() + Delivered(r.script, buf.Length))
      ensures !failed ==> Ahead() == old(Ahead()) && |r.script| + |Stream(r.script)| < old(|r.script| + |Stream(r.script)|)
      ensures old(QuietErrors(r.script)) ==> QuietErrors(r.script) && (failed ==> data == [])
    {
      hide Stream, QuietErrors, Delivered;
      data, failed := Read();
      if !failed {
        Regroup([], [], Stream(r.script));
        Regroup([], [], old(Delivered(r.script, buf.Length)));
        off := 0;
        assert Unread() == data;
      }
    }

    /** Takes the buffered bytes up to and including the delimiter, or all of them if it is not there. */
    method TakeBuffered(delim: byte) returns (part: seq<byte>, found: bool)
      requires Valid() && off >= 0
      modifies this`off
      ensures Valid()
      ensures part + Ahead() == old(Ahead())
      ensures part + (Unread() + Delivered(r.script, buf.Length)) == old(Unread() + Delivered(r.script, buf.Length))
      ensures found ==> part != [] && part[|part| - 1] == delim && delim !in part[..|part| - 1]
      ensures !found ==> delim !in part && off < 0
    {
      hide Stream, Delivered;
      ghost var rest, sure := Stream(r.script), Delivered(r.script, buf.Length);
      var window := buf[off..n];
      var i := IndexByte(window, delim);
      if i >= 0 {
        var end := off + i + 1;
        part := buf[off..end];
        Window(buf[..], off, end, n);
        assert window == buf[..][off..n] && part == buf[..][off..end] && buf[end..n] == buf[..][end..n];
        TakeThrough(window, i, rest);
        TakeThrough(window, i, sure);
        off := end;
        if off >= n {
          off := -1;
        }
        assert Unread() == window[i + 1..];
        return part, true;
      }
      off := -1;
      Regroup(window, [], rest);
      Regroup(window, [], sure);
      assert Unread() == [];
      return window, false;
    }
  }

  lemma Window<T>(s: seq<T>, from: nat, mid: nat, to: nat)
    requires from <= mid <= to <= |s|
    ensures s[from..mid] == s[from..to][..mid - from] && s[mid..to] == s[from..to][mid - from..]
  {
  }

  lemma TakeThrough<T>(window: seq<T>, i: nat, rest: seq<T>)
    requires i < |window|
    ensures window[..i + 1] + (window[i + 1..] + rest) == window + rest
    ensures window[..i + 1][..i] == window[..i]
  {
  }

  lemma LastOf<T>(a: seq<T>, b: seq<T>)
    ensures b != [] ==> (a + b)[..|a + b| - 1] == a + b[..|b| - 1] && (a + b)[|a + b| - 1] == b[|b| - 1]
  {
  }

  /** `bytes.IndexByte`. */
  method IndexByte(s: seq<byte>, c: byte) returns (i: int)
    ensures i == -1 ==> c !in s
    ensures i != -1 ==> 0 <= i < |s| && s[i] == c && c !in s[..i]
  {
    i := 0;
    while i < |s|
      invariant 0 <= i <= |s| && c !in s[..i]
    {
      if s[i] == c { return i; }
      i := i + 1;
    }
    assert s[..i] == s;
    return -1;
  }
}
