/** Streams over a socket whose transfers may be short, and the loops that complete them:
    readFixSize/writeFixSize on plain buffers and on a ByteArray. */
module Streams {
  import opened Blocks
  import opened ByteArrays
  import opened Wrappers

  const INT_RANGE: nat := 0x1_0000_0000
  const INT_MAX: nat := 0x7FFF_FFFF

  /** A size_t converted to int on return. */
  function AsInt(n: nat): int {
    var low := n % INT_RANGE;
    if low <= INT_MAX then low else low - INT_RANGE
  }

  const LONG_RANGE: nat := 0x1_0000_0000_0000_0000
  const LONG_MAX: nat := 0x7FFF_FFFF_FFFF_FFFF

  /** A size_t converted to int64_t. */
  function AsLong(n: nat): int {
    var low := n % LONG_RANGE;
    if low <= LONG_MAX then low else low - LONG_RANGE
  }

  /** How many bytes a loop over `int64_t left = length` asks for; none when that is negative. */
  function Wanted(length: nat): nat { Max(AsLong(length), 0) }

  lemma SplitFront(s: seq<byte>, p: nat, n: nat, q: nat)
    requires p + n == q <= |s|
    ensures s[..q] == s[..p] + s[p..][..n] && s[q..] == s[p..][n..]
  {
  }

  lemma TakePrefix(d: seq<byte>, at: nat, size: nat, end: nat)
    requires at <= end <= at + size <= |d|
    ensures d[at..at + size][..end - at] == d[at..end]
  {
  }

  /** recvmsg() into a view of the ByteArray, and the cursor moved over what arrived. */
  method Deliver(ba: ByteArray, iovs: seq<Iov>, len: nat, data: seq<byte>)
    requires ba.Valid() && ba.m_position + len <= ba.m_capacity == |ba.Data()|
    requires iovs == ba.ViewHere(len) && 0 < |data| <= len
    modifies ba`m_position, ba`m_size, ba`m_cur, ba`blk, ba.Arrays()
    ensures ba.Valid()
    ensures ba.m_position == old(ba.m_position) + |data| && ba.m_size == Max(old(ba.m_size), ba.m_position)
    ensures ba.Data() == Splice(old(ba.Data()), old(ba.m_position), data)
  {
    ba.Scatter(iovs, len, data);
    var ok := ba.SetPosition(ba.m_position + |data|);
  }

  /** A connected socket: rx are the bytes still to be received, tx the bytes accepted for
      sending.  A transfer moves an arbitrary non-empty prefix of what was asked for, or
      fails; on a reliable socket it only fails when there is nothing to move. */
  class Stream {
    const reliable: bool
    var connected: bool
    var rx: seq<byte>
    var tx: seq<byte>

    constructor (reliable: bool, rx: seq<byte>)
      ensures this.reliable == reliable && connected && this.rx == rx && tx == []
    {
      this.reliable, connected, this.rx, tx := reliable, true, rx, [];
    }

    method Close()
      modifies this`connected
      ensures !connected
    {
      connected := false;
    }

    /** recv(): rt bytes arrive, or rt <= 0. */
    method Recv(length: nat) returns (rt: int, data: seq<byte>)
      modifies this`rx
      ensures rt <= length && |data| == Max(rt, 0) <= |old(rx)|
      ensures data == old(rx)[..|data|] && rx == old(rx)[|data|..]
      ensures reliable && connected && length > 0 && old(rx) != [] ==> rt > 0
    {
      var k: nat :| k <= length && k <= |rx| && (length > 0 && rx != [] && reliable ==> k > 0);
      if !connected {
        return -1, [];
      }
      rt, data := k, rx[..k];
      rx := rx[k..];
    }

    /** send(): a prefix of the bytes is taken, or rt <= 0. */
    method Send(data: seq<byte>) returns (rt: int)
      modifies this`tx
      ensures rt <= |data| && tx == old(tx) + data[..Max(rt, 0)]
      ensures reliable && connected && data != [] ==> rt > 0
    {
      var k: nat :| k <= |data| && (data != [] && reliable ==> k > 0);
      if !connected {
        assert data[..0] == [];
        return -1;
      }
      rt := k;
      tx := tx + data[..k];
    }

    /** readFixSize() into a plain buffer; data are the bytes that arrived, in order. */
    method ReadFixSize(length: nat) returns (ret: int, data: seq<byte>)
      modifies this`rx
      ensures |data| <= Wanted(length) && |data| <= |old(rx)|
      ensures data == old(rx)[..|data|] && rx == old(rx)[|data|..]
      ensures |data| == Wanted(length) ==> ret == AsInt(length)
      ensures |data| < Wanted(length) ==> ret <= 0
      ensures reliable && connected && Wanted(length) <= |old(rx)| ==> |data| == Wanted(length)
    {
      var left := AsLong(length);
      data := [];
      ghost var all, got: nat := rx, 0;
      while left > 0
        invariant Max(left, 0) + got == Wanted(length) && got <= |all| && |data| == got
        invariant data == all[..got] && rx == all[got..]
        invariant reliable && connected && Wanted(length) <= |all| ==> left <= |rx|
      {
        var len, chunk := Recv(left);
        if len <= 0 {
          return len, data;
        }
        ghost var next := got + len;
        SplitFront(all, got, len, next);
        data := data + chunk;
        left := left - len;
        got := next;
      }
      ret := AsInt(length);
    }

    /** writeFixSize() from a plain buffer. */
    method WriteFixSize(buffer: seq<byte>) returns (ret: int, ghost moved: nat)
      modifies this`tx
      ensures moved <= |buffer| && tx == old(tx) + buffer[..moved]
      ensures moved == |buffer| ==> ret == AsInt(|buffer|)
      ensures moved < |buffer| ==> ret <= 0
      ensures reliable && connected ==> moved == |buffer|
    {
      var offset: nat, left: nat := 0, |buffer|;
      moved := 0;
      assert buffer[..0] == [];
      while left > 0
        invariant offset + left == |buffer| && moved == offset
        invariant tx == old(tx) + buffer[..offset]
      {
        var len := Send(buffer[offset..]);
        if len <= 0 {
          return len, moved;
        }
        SplitFront(buffer, offset, len, offset + len);
        offset, left := offset + len, left - len;
        moved := offset;
      }
      ret := AsInt(|buffer|);
    }

    method Receive(ba: ByteArray, iovs: seq<Iov>, length: nat) returns (rt: int, ghost data: seq<byte>)
      requires ba.Valid() && length > 0 && ba.m_position + length <= ba.m_capacity == |ba.Data()|
      requires iovs == ba.ViewHere(length)
      modifies this`rx, ba`m_position, ba`m_size, ba`m_cur, ba`blk, ba.Arrays()
      ensures ba.Valid() && rt <= length && |data| == Max(rt, 0) <= |old(rx)|
      ensures ba.m_position == old(ba.m_position) + |data| && ba.m_size == Max(old(ba.m_size), ba.m_position)
      ensures data == old(rx)[..|data|] && rx == old(rx)[|data|..]
      ensures ba.Data() == Splice(old(ba.Data()), old(ba.m_position), data)
      ensures reliable && connected && old(rx) != [] ==> rt > 0
    {
      var bytes;
      rt, bytes := Recv(length);
      data := bytes;
      assert ba.Blocks() == old(ba.Blocks());
      if rt > 0 {
        Deliver(ba, iovs, length, bytes);
      } else {
        assert Splice(ba.Data(), ba.m_position, []) == ba.Data();
      }
    }

    /** SocketStream::read(ByteArray): fill the write view, then move the cursor; `data` are
        the bytes that arrived. */
    method ReadInto(ba: ByteArray, length: nat) returns (rt: int, ghost data: seq<byte>)
      requires ba.Valid() && length > 0
      modifies this`rx, ba, ba.nodes, ba.Arrays()
      ensures ba.Valid() && rt <= length && |data| == Max(rt, 0) <= |old(rx)|
      ensures ba.m_position == old(ba.m_position) + |data| && ba.m_size == Max(old(ba.m_size), ba.m_position)
      ensures data == old(rx)[..|data|] && rx == old(rx)[|data|..]
      ensures Overwritten(old(ba.Data()), old(ba.m_position), data, ba.Data())
      ensures old(ba.nodes) <= ba.nodes
      ensures forall i :: |old(ba.nodes)| <= i < |ba.nodes| ==> fresh(ba.nodes[i]) && fresh(ba.nodes[i].ptr)
      ensures reliable && connected && old(rx) != [] ==> rt > 0
    {
      if connected {
        rt, data := ReadConnected(ba, length);
      } else {
        ba.DataLength();
        rt, data := -1, [];
      }
    }

    method ReadConnected(ba: ByteArray, length: nat) returns (rt: int, ghost data: seq<byte>)
      requires ba.Valid() && length > 0
      modifies this`rx, ba, ba.nodes, ba.Arrays()
      ensures ba.Valid() && rt <= length && |data| == Max(rt, 0) <= |old(rx)|
      ensures ba.m_position == old(ba.m_position) + |data| && ba.m_size == Max(old(ba.m_size), ba.m_position)
      ensures data == old(rx)[..|data|] && rx == old(rx)[|data|..]
      ensures Overwritten(old(ba.Data()), old(ba.m_position), data, ba.Data())
      ensures old(ba.nodes) <= ba.nodes
      ensures forall i :: |old(ba.nodes)| <= i < |ba.nodes| ==> fresh(ba.nodes[i]) && fresh(ba.nodes[i].ptr)
      ensures reliable && connected && old(rx) != [] ==> rt > 0
    {
      ghost var before := ba.Data();
      var iovs := ba.GetWriteBuffers(length);
      ghost var grown, at := ba.Data(), ba.m_position;
      rt, data := Receive(ba, iovs, length);
      SpliceOverwrites(before, grown, at, data);
    }

    /** One more transfer: what has arrived so far is written at `at`, in order. */
    method ReadMore(ba: ByteArray, left: nat, ghost before: seq<byte>, ghost at: nat,
                    ghost all: seq<byte>, ghost got: nat)
      returns (rt: int, ghost next: nat)
      requires ba.Valid() && left > 0 && got <= |all| && rx == all[got..] && ba.m_position == at + got
      requires Overwritten(before, at, all[..got], ba.Data())
      modifies this`rx, ba, ba.nodes, ba.Arrays()
      ensures ba.Valid() && rt <= left && next == got + Max(rt, 0) <= |all|
      ensures rx == all[next..] && ba.m_position == at + next
      ensures ba.m_size == Max(old(ba.m_size), ba.m_position)
      ensures Overwritten(before, at, all[..next], ba.Data())
      ensures old(ba.nodes) <= ba.nodes
      ensures forall i :: |old(ba.nodes)| <= i < |ba.nodes| ==> fresh(ba.nodes[i]) && fresh(ba.nodes[i].ptr)
      ensures reliable && connected && got < |all| ==> rt > 0
    {
      ghost var data, mid, p := [], ba.Data(), ba.m_position;
      rt, data := ReadInto(ba, left);
      next := got + |data|;
      SplitFront(all, got, |data|, next);
      OverwrittenTwice(before, at, all[..got], mid, p, data, ba.Data());
    }

    /** readFixSize(ByteArray): however the transfers are cut, the first `moved` received
        bytes end up at the cursor in order, and the cursor advances by that many. */
    method ReadFixSizeInto(ba: ByteArray, length: nat) returns (ret: int, ghost moved: nat)
      requires ba.Valid()
      modifies this`rx, ba, ba.nodes, ba.Arrays()
      ensures ba.Valid() && moved <= Wanted(length) && moved <= |old(rx)|
      ensures rx == old(rx)[moved..] && ba.m_position == old(ba.m_position) + moved
      ensures ba.m_size == Max(old(ba.m_size), ba.m_position)
      ensures Overwritten(old(ba.Data()), old(ba.m_position), old(rx)[..moved], ba.Data())
      ensures moved == Wanted(length) ==> ret == AsInt(length)
      ensures moved < Wanted(length) ==> ret <= 0
      ensures reliable && connected && Wanted(length) <= |old(rx)| ==> moved == Wanted(length)
    {
      ghost var before, at, all := ba.Data(), ba.m_position, rx;
      ba.DataLength();
      assert all[..0] == [] && all[0..] == all;
      NothingOverwritten(before, at);
      ret, moved := ReadOn(ba, length, before, at, all);
    }

    method ReadOn(ba: ByteArray, length: nat, ghost before: seq<byte>, ghost at: nat, ghost all: seq<byte>)
      returns (ret: int, ghost moved: nat)
      requires ba.Valid() && rx == all[0..] && ba.m_position == at + 0
      requires Overwritten(before, at, all[..0], ba.Data())
      modifies this`rx, ba, ba.nodes, ba.Arrays()
      ensures ba.Valid() && moved <= Wanted(length) && moved <= |all|
      ensures rx == all[moved..] && ba.m_position == at + moved
      ensures ba.m_size == Max(old(ba.m_size), ba.m_position)
      ensures Overwritten(before, at, all[..moved], ba.Data())
      ensures moved == Wanted(length) ==> ret == AsInt(length)
      ensures moved < Wanted(length) ==> ret <= 0
      ensures reliable && connected && Wanted(length) <= |all| ==> moved == Wanted(length)
    {
      moved := 0;
      var left: nat := Wanted(length);
      ghost var total := left;
      while left > 0
        invariant left + moved == total && moved <= |all|
        invariant ba.Valid() && rx == all[moved..] && ba.m_position == at + moved
        invariant ba.m_size == Max(old(ba.m_size), ba.m_position)
        invariant Overwritten(before, at, all[..moved], ba.Data())
        invariant old(ba.nodes) <= ba.nodes
        invariant forall i :: |old(ba.nodes)| <= i < |ba.nodes| ==> fresh(ba.nodes[i]) && fresh(ba.nodes[i].ptr)
      {
        var len;
        len, moved := ReadMore(ba, left, before, at, all, moved);
        if len <= 0 {
          return len, moved;
        }
        left := left - len;
      }
      ret := AsInt(length);
    }

    /** What sendmsg() takes its prefix from: the pieces one after the other. */
    static method Flatten(iovs: seq<Iov>) returns (data: seq<byte>)
      requires InBounds(iovs)
      ensures data == old(Gather(iovs))
    {
      data := [];
      assert iovs[0..] == iovs;
      for i := 0 to |iovs|
        invariant InBounds(iovs[i..]) && data + old(Gather(iovs[i..])) == old(Gather(iovs))
      {
        assert iovs[i..][1..] == iovs[i + 1..] && iovs[i..][0] == iovs[i];
        var piece := iovs[i].base[iovs[i].off..iovs[i].off + iovs[i].len];
        Reassociate(data, piece, old(Gather(iovs[i + 1..])));
        data := data + piece;
      }
    }

    /** SocketStream::write(ByteArray): send the read view, then move the cursor. */
    method WriteFrom(ba: ByteArray, length: nat) returns (rt: int)
      requires ba.Valid()
      modifies this`tx, ba`m_position, ba`m_size, ba`m_cur, ba`blk
      ensures ba.Valid() && ba.Data() == old(ba.Data()) && |ba.Data()| == ba.m_capacity
      ensures rt <= length && ba.m_position == old(ba.m_position) + Max(rt, 0) <= ba.m_size == old(ba.m_size)
      ensures tx == old(tx) + ba.Data()[old(ba.m_position)..ba.m_position]
      ensures reliable && connected && length > 0 && ba.m_size > old(ba.m_position) ==> rt > 0
    {
      if !connected {
        ba.DataLength();
        assert ba.Data()[ba.m_position..ba.m_position] == [];
        return -1;
      }
      rt := WriteConnected(ba, length);
    }

    method WriteConnected(ba: ByteArray, length: nat) returns (rt: int)
      requires ba.Valid()
      modifies this`tx, ba`m_position, ba`m_size, ba`m_cur, ba`blk
      ensures ba.Valid() && ba.Data() == old(ba.Data()) && |ba.Data()| == ba.m_capacity
      ensures rt <= length && ba.m_position == old(ba.m_position) + Max(rt, 0) <= ba.m_size == old(ba.m_size)
      ensures tx == old(tx) + ba.Data()[old(ba.m_position)..ba.m_position]
      ensures reliable && connected && length > 0 && ba.m_size > old(ba.m_position) ==> rt > 0
    {
      ghost var end;
      rt, end := SendUnread(ba, length);
      if rt > 0 {
        var ok := ba.SetPosition(ba.m_position + rt);
      }
      ba.DataLength();
    }

    /** Send a prefix of the unread contents, up to `end`; the cursor stays. */
    method SendUnread(ba: ByteArray, length: nat) returns (rt: int, ghost end: nat)
      requires ba.Valid()
      modifies this`tx
      ensures ba.Valid() && ba.Data() == old(ba.Data())
      ensures rt <= length && end == ba.m_position + Max(rt, 0) <= ba.m_size <= |ba.Data()|
      ensures tx == old(tx) + ba.Data()[ba.m_position..end]
      ensures reliable && connected && length > 0 && ba.m_size > ba.m_position ==> rt > 0
    {
      var size, iovs := ba.GetReadBuffers(length);
      rt, end := SendView(iovs, ba.Data(), ba.m_position, size);
      assert ba.Blocks() == old(ba.Blocks());
    }

    /** sendmsg() of pieces that hold d[at..at + size]. */
    method SendView(iovs: seq<Iov>, ghost d: seq<byte>, ghost at: nat, ghost size: nat)
      returns (rt: int, ghost end: nat)
      requires InBounds(iovs) && at + size <= |d| && Gather(iovs) == d[at..at + size]
      modifies this`tx
      ensures rt <= size && end == at + Max(rt, 0) && tx == old(tx) + d[at..end]
      ensures reliable && connected && size > 0 ==> rt > 0
    {
      var data := Flatten(iovs);
      rt := Send(data);
      end := at + Max(rt, 0);
      TakePrefix(d, at, size, end);
    }

    /** writeFixSize(ByteArray): however the transfers are cut, the first `moved` unread bytes
        are sent in order, and the cursor advances by that many. */
    method WriteFixSizeFrom(ba: ByteArray, length: nat) returns (ret: int, ghost moved: nat)
      requires ba.Valid()
      modifies this`tx, ba`m_position, ba`m_size, ba`m_cur, ba`blk
      ensures ba.Valid() && ba.Data() == old(ba.Data()) && |ba.Data()| == ba.m_capacity
      ensures moved <= Wanted(length) && ba.m_position == old(ba.m_position) + moved <= ba.m_size == old(ba.m_size)
      ensures tx == old(tx) + ba.Data()[old(ba.m_position)..ba.m_position]
      ensures moved == Wanted(length) ==> ret == AsInt(length)
      ensures moved < Wanted(length) ==> ret <= 0
      ensures reliable && connected ==> moved == Min(Wanted(length), ba.m_size - old(ba.m_position))
    {
      ba.DataLength();
      assert ba.Data()[ba.m_position..ba.m_position] == [];
      ret, moved := WriteOn(ba, length, ba.Data(), ba.m_position, tx);
    }

    method WriteOn(ba: ByteArray, length: nat, ghost d: seq<byte>, ghost at: nat, ghost before: seq<byte>)
      returns (ret: int, ghost moved: nat)
      requires ba.Valid() && ba.Data() == d && |d| == ba.m_capacity && ba.m_position == at
      requires tx == before + d[at..at]
      modifies this`tx, ba`m_position, ba`m_size, ba`m_cur, ba`blk
      ensures ba.Valid() && ba.Data() == d && |d| == ba.m_capacity
      ensures moved <= Wanted(length) && ba.m_position == at + moved <= ba.m_size == old(ba.m_size)
      ensures tx == before + d[at..ba.m_position]
      ensures moved == Wanted(length) ==> ret == AsInt(length)
      ensures moved < Wanted(length) ==> ret <= 0
      ensures reliable && connected ==> moved == Min(Wanted(length), ba.m_size - at)
    {
      moved := 0;
      var left: nat := Wanted(length);
      while left > 0
        invariant moved + left == Wanted(length)
        invariant ba.Valid() && ba.Data() == d && |d| == ba.m_capacity
        invariant ba.m_position == at + moved <= ba.m_size == old(ba.m_size)
        invariant tx == before + d[at..ba.m_position]
      {
        ghost var p := ba.m_position;
        var len := WriteFrom(ba, left);
        SliceNext(d, at, p, ba.m_position);
        moved := moved + Max(len, 0);
        if len <= 0 {
          return len, moved;
        }
        left := left - len;
      }
      ret := AsInt(length);
    }
  }
}
