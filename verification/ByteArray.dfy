/** ByteArray: a linked list of fixed-size memory blocks with one cursor, refining a flat
    byte sequence.  `nodes` is the list as a sequence; Data() is its flat contents. */
module ByteArrays {
  import opened Blocks

  class Node {
    const ptr: array<byte>
    const size: nat
    var next: Node?

    constructor (s: nat)
      ensures fresh(ptr) && ptr.Length == s && size == s && next == null
    {
      ptr, size, next := new byte[s], s, null;
    }
  }

  /** One piece of memory handed to scatter/gather I/O. */
  datatype Iov = Iov(base: array<byte>, off: nat, len: nat)

  /** What read() comes to: the bytes, std::out_of_range, or a dereference of the null m_cur
      (a zero-length read with the cursor at capacity). */
  datatype ReadResult = Bytes(data: seq<byte>) | NotEnough | NullBlock

  /** read() on flat contents. */
  function ReadAt(data: seq<byte>, pos: nat, size: nat, n: nat): ReadResult
    requires pos <= size <= |data|
  {
    if n > size - pos then NotEnough
    else if pos == |data| then NullBlock
    else Bytes(data[pos..pos + n])
  }

  /** write(): the addressed range is overwritten and nothing before or after it changes. */
  ghost predicate Overwritten(before: seq<byte>, at: nat, src: seq<byte>, after: seq<byte>) {
    && at <= |before| <= |after| && at + |src| <= |after|
    && after[..at] == before[..at]
    && after[at..at + |src|] == src
    && (at + |src| <= |before| ==> after[at + |src|..|before|] == before[at + |src|..])
  }

  lemma SpliceOverwrites(before: seq<byte>, grown: seq<byte>, at: nat, src: seq<byte>)
    requires at <= |before| <= |grown| && at + |src| <= |grown| && grown[..|before|] == before
    ensures Overwritten(before, at, src, Splice(grown, at, src))
  {
  }

  lemma NothingOverwritten(d: seq<byte>, at: nat)
    requires at <= |d|
    ensures Overwritten(d, at, [], d)
  {
  }

  /** Two adjacent overwrites are one. */
  lemma OverwrittenTwice(before: seq<byte>, at: nat, first: seq<byte>, mid: seq<byte>,
                         p: nat, second: seq<byte>, after: seq<byte>)
    requires Overwritten(before, at, first, mid) && p == at + |first| && Overwritten(mid, p, second, after)
    ensures Overwritten(before, at, first + second, after)
  {
    assert after[at..at + |first|] == after[..at + |first|][at..] == mid[at..at + |first|];
    assert after[..at] == after[..at + |first|][..at];
    var end := at + |first + second|;
    assert after[at..end] == after[at..at + |first|] + after[at + |first|..end];
    if end <= |before| {
      forall i | end <= i < |before| ensures after[i] == before[i] {
        assert after[i] == after[end..|mid|][i - end];
        assert mid[i] == mid[at + |first|..|before|][i - (at + |first|)];
      }
    }
  }

  /** memcpy into one block. */
  method CopyIn(dst: array<byte>, off: nat, src: seq<byte>)
    requires off + |src| <= dst.Length
    modifies dst
    ensures dst[..] == Splice(old(dst[..]), off, src)
  {
    forall k | 0 <= k < |src| {
      dst[off + k] := src[k];
    }
  }

  method BlocksNeeded(need: nat, b: nat) returns (count: nat)
    requires need > 0 && b > 0
    ensures count > 0 && Start(b, count - 1) < need <= Start(b, count)
  {
    count := need / b + (if need % b != 0 then 1 else 0);
    RoundUp(b, need, count);
  }

  class ByteArray {
    const m_baseSize: nat
    const m_root: Node
    var m_position: nat
    var m_capacity: nat
    var m_size: nat
    var m_cur: Node?

    /** The linked list as a sequence, the index of m_cur in it, and the index of the block
        that each piece of memory belongs to. */
    ghost var nodes: seq<Node>
    ghost var blk: nat
    ghost var place: map<array<byte>, nat>

    ghost function Arrays(): set<array<byte>>
      reads this`nodes
    {
      set i | 0 <= i < |nodes| :: nodes[i].ptr
    }

    /** The blocks form one acyclic list of equally sized, distinct pieces of memory. */
    ghost predicate Chain()
      reads this`m_capacity, this`nodes, this`place, nodes
    {
      && m_baseSize > 0 && |nodes| > 0 && nodes[0] == m_root
      && (forall i :: 0 <= i < |nodes| ==> nodes[i].size == m_baseSize && nodes[i].ptr.Length == m_baseSize)
      && (forall i :: 0 <= i < |nodes| ==> nodes[i].ptr in place && place[nodes[i].ptr] == i)
      && (forall i :: 0 <= i < |nodes| - 1 ==> nodes[i].next == nodes[i + 1])
      && nodes[|nodes| - 1].next == null
      && m_capacity == Start(m_baseSize, |nodes|)
    }

    /** m_cur is the block that holds m_position, and null exactly at capacity. */
    ghost predicate Cursor()
      reads this`m_position, this`m_cur, this`blk, this`nodes
    {
      && blk <= |nodes|
      && m_cur == (if blk < |nodes| then nodes[blk] else null)
      && Start(m_baseSize, blk) <= m_position
      && m_position - Start(m_baseSize, blk) < (if blk < |nodes| then m_baseSize else 1)
    }

    ghost predicate Valid()
      reads this, nodes
    {
      Chain() && Cursor() && m_position <= m_size <= m_capacity
    }

    /** The cursor block in terms of the position alone. */
    lemma CursorIsQuotient()
      requires Chain() && Cursor()
      ensures m_position <= m_capacity
      ensures m_cur == null <==> m_position == m_capacity
      ensures m_position < m_capacity ==>
                m_position / m_baseSize < |nodes| && m_cur == nodes[m_position / m_baseSize]
    {
      if blk < |nodes| {
        StartOrder(m_baseSize, blk, |nodes|);
        InsideBlock(m_baseSize, blk, m_position);
      }
    }

    ghost function Blocks(): (r: seq<seq<byte>>)
      reads this`nodes, Arrays()
      ensures |r| == |nodes|
    {
      var ns := nodes;
      seq(|ns|, i requires 0 <= i < |ns| reads if 0 <= i < |ns| then {ns[i].ptr} else {} => ns[i].ptr[..])
    }

    ghost function Data(): seq<byte>
      reads this`nodes, Arrays()
    {
      Concat(Blocks())
    }

    lemma DataLength()
      requires Chain()
      ensures Uniform(Blocks(), m_baseSize) && |Data()| == m_capacity
    {
      ConcatLength(Blocks(), m_baseSize);
    }

    /** Valid() needs blocks that hold something; the source accepts a base size of 0 too. */
    constructor (base_size: nat)
      ensures base_size > 0 ==> Valid()
      ensures m_baseSize == base_size
      ensures m_position == 0 && m_size == 0 && m_capacity == base_size
      ensures fresh(nodes) && fresh(Arrays())
    {
      m_baseSize, m_position, m_capacity, m_size := base_size, 0, base_size, 0;
      var root := new Node(base_size);
      m_root, m_cur := root, root;
      nodes, blk, place := [root], 0, map[root.ptr := 0];
      new;
      assert Start(base_size, 1) == Start(base_size, 0) + base_size;
    }

    method Tail() returns (tmp: Node)
      requires Chain()
      ensures tmp == nodes[|nodes| - 1]
    {
      tmp := m_root;
      ghost var at := 0;
      while tmp.next != null
        invariant 0 <= at < |nodes| && tmp == nodes[at]
        invariant at < |nodes| - 1 ==> nodes[at].next == nodes[at + 1]
        decreases |nodes| - at
      {
        tmp := tmp.next;
        at := at + 1;
      }
    }

    method LinkBlock(tmp: Node) returns (node: Node)
      requires Chain() && tmp == nodes[|nodes| - 1]
      modifies this`m_capacity, this`nodes, this`place, tmp
      ensures Chain() && nodes == old(nodes) + [node]
      ensures fresh(node) && fresh(node.ptr)
    {
      node := new Node(m_baseSize);
      tmp.next := node;
      place := place[node.ptr := |nodes|];
      nodes := nodes + [node];
      m_capacity := m_capacity + m_baseSize;
    }

    method LinkBlocks(count: nat) returns (first: Node?)
      requires Chain()
      modifies this`m_capacity, this`nodes, this`place, nodes
      ensures Chain() && old(nodes) <= nodes && |nodes| == |old(nodes)| + count
      ensures forall i :: |old(nodes)| <= i < |nodes| ==> fresh(nodes[i]) && fresh(nodes[i].ptr)
      ensures first == if count == 0 then null else nodes[|old(nodes)|]
    {
      var tmp := Tail();
      first := null;
      for i := 0 to count
        invariant Chain() && |nodes| == |old(nodes)| + i && tmp == nodes[|nodes| - 1]
        invariant old(nodes) <= nodes
        invariant forall k :: |old(nodes)| <= k < |nodes| ==> fresh(nodes[k]) && fresh(nodes[k].ptr)
        invariant first == if i == 0 then null else nodes[|old(nodes)|]
      {
        var node := LinkBlock(tmp);
        if first == null {
          first := node;
        }
        tmp := node;
      }
    }

    /** Link blocks at the tail until `size` more bytes fit after the cursor, and no more
        than that; the contents stay. */
    method AddCapacity(size: nat)
      requires Chain() && Cursor()
      modifies this`m_capacity, this`m_cur, this`nodes, this`place, nodes
      ensures Chain() && Cursor() && m_position + size <= m_capacity
      ensures nodes == old(nodes) || m_capacity - m_baseSize < m_position + size
      ensures old(nodes) <= nodes
      ensures forall i :: |old(nodes)| <= i < |nodes| ==> fresh(nodes[i]) && fresh(nodes[i].ptr)
    {
      CursorIsQuotient();
      var oldCap := m_capacity - m_position;
      if size == 0 || oldCap >= size {
        return;
      }
      var count := BlocksNeeded(size - oldCap, m_baseSize);
      StartSum(m_baseSize, |nodes|, count);
      StartSum(m_baseSize, |nodes|, count - 1);
      var first := LinkBlocks(count);
      if oldCap == 0 {
        m_cur := first;
      }
    }

    /** Data() after one block of memory has been overwritten. */
    lemma SplicedBlock(before: seq<seq<byte>>, k: nat, off: nat, src: seq<byte>)
      requires Uniform(before, m_baseSize) && |before| == |nodes| && k < |nodes| && off + |src| <= m_baseSize
      requires forall i :: 0 <= i < |nodes| ==>
                 nodes[i].ptr[..] == if i == k then Splice(before[k], off, src) else before[i]
      ensures Start(m_baseSize, k) + off + |src| <= |Concat(before)|
      ensures Data() == Splice(Concat(before), Start(m_baseSize, k) + off, src)
    {
      ConcatSplice(before, m_baseSize, k, off, src);
      assert Blocks() == before[k := Splice(before[k], off, src)];
    }

    /** memcpy into the current block at the cursor. */
    method StoreHere(npos: nat, chunk: seq<byte>)
      requires Chain() && Cursor() && m_cur != null
      requires npos == m_position - Start(m_baseSize, blk) && npos + |chunk| <= m_baseSize
      modifies m_cur.ptr
      ensures m_position + |chunk| <= |old(Data())|
      ensures Data() == Splice(old(Data()), m_position, chunk)
    {
      ghost var before := Blocks();
      CopyIn(m_cur.ptr, npos, chunk);
      SplicedBlock(before, blk, npos, chunk);
    }

    lemma OffsetInBlock()
      requires Chain() && Cursor() && m_cur != null
      ensures m_position % m_baseSize == m_position - Start(m_baseSize, blk)
    {
      InsideBlock(m_baseSize, blk, m_position);
    }

    /** Move the cursor over n bytes of the current block, and on to the next block at its end. */
    method Step(npos: nat, n: nat)
      requires Chain() && Cursor() && m_cur != null
      requires npos == m_position - Start(m_baseSize, blk) && npos + n <= m_baseSize
      modifies this`m_position, this`m_cur, this`blk
      ensures Chain() && Cursor() && m_position == old(m_position) + n
      ensures m_position - Start(m_baseSize, blk) == if npos + n == m_baseSize then 0 else npos + n
      ensures Data() == old(Data())
    {
      if m_cur.size == npos + n {
        m_cur := m_cur.next;
        blk := blk + 1;
      }
      m_position := m_position + n;
      assert Blocks() == old(Blocks());
    }

    /** Store n bytes at the cursor and move over them. */
    method Put(npos: nat, chunk: seq<byte>)
      requires Chain() && Cursor() && m_cur != null
      requires npos == m_position - Start(m_baseSize, blk) && npos + |chunk| <= m_baseSize
      modifies this`m_position, this`m_cur, this`blk, Arrays()
      ensures Chain() && Cursor() && m_position == old(m_position) + |chunk|
      ensures m_position - Start(m_baseSize, blk) == if npos + |chunk| == m_baseSize then 0 else npos + |chunk|
      ensures m_position < m_capacity ==> m_cur != null && m_cur.size == m_baseSize
      ensures old(m_position) + |chunk| <= |old(Data())|
      ensures Data() == Splice(old(Data()), old(m_position), chunk)
    {
      StoreHere(npos, chunk);
      Step(npos, |chunk|);
      CursorIsQuotient();
    }

    method WriteLoop(offset: nat, buf: seq<byte>)
      requires Chain() && Cursor() && m_cur != null && |Data()| == m_capacity && m_position + |buf| <= m_capacity
      requires offset == m_position - Start(m_baseSize, blk)
      modifies this`m_position, this`m_cur, this`blk, Arrays()
      ensures Chain() && Cursor() && m_position == old(m_position) + |buf|
      ensures Data() == Splice(old(Data()), old(m_position), buf)
    {
      ghost var before, at := Data(), m_position;
      var size := |buf|;
      var npos := offset;
      var ncap := m_cur.size - npos;
      var bpos := 0;
      while size > 0
        invariant 0 <= bpos && bpos + size == |buf| && 0 <= size
        invariant Cursor() && m_position == at + bpos
        invariant size > 0 ==> m_cur != null && npos == m_position - Start(m_baseSize, blk) && ncap == m_baseSize - npos
        invariant Data() == Written(before, at, buf, bpos)
      {
        var n := if ncap >= size then size else ncap;
        var next := bpos + n;
        WrittenNext(before, at, buf, bpos, next, m_position);
        var chunk := buf[bpos..next];
        assert |chunk| == n;
        Put(npos, chunk);
        bpos := next;
        size := size - n;
        if size > 0 {
          ncap := m_cur.size;
          npos := 0;
        }
      }
      WrittenAll(before, at, buf, bpos);
    }

    /** addCapacity() seen on the contents: more bytes at the end, the old ones untouched. */
    method Extend(size: nat)
      requires Valid()
      modifies this`m_capacity, this`m_cur, this`nodes, this`place, nodes
      ensures Valid() && m_position + size <= m_capacity && old(m_capacity) <= m_capacity
      ensures m_capacity == old(m_capacity) || m_capacity - m_baseSize < m_position + size
      ensures old(nodes) <= nodes
      ensures forall i :: |old(nodes)| <= i < |nodes| ==> fresh(nodes[i]) && fresh(nodes[i].ptr)
      ensures |old(Data())| == old(m_capacity) && |Data()| == m_capacity
      ensures Data()[..old(m_capacity)] == old(Data())
    {
      DataLength();
      ghost var blocks := Blocks();
      AddCapacity(size);
      DataLength();
      assert Blocks()[..|blocks|] == blocks;
      assert Blocks() == blocks + Blocks()[|blocks|..];
      ConcatAppend(blocks, Blocks()[|blocks|..]);
    }

    /** Overwrite from the cursor on, growing the list as needed; `grown` are the contents
        between growing and copying. */
    method Write(buf: seq<byte>) returns (ghost grown: seq<byte>)
      requires Valid()
      modifies this`m_position, this`m_capacity, this`m_size, this`m_cur, this`blk, this`nodes, this`place
      modifies nodes, Arrays()
      ensures Valid()
      ensures m_position == old(m_position) + |buf| && m_size == Max(old(m_size), m_position)
      ensures |old(Data())| == old(m_capacity) <= |grown| == m_capacity && grown[..old(m_capacity)] == old(Data())
      ensures Data() == Splice(grown, old(m_position), buf)
      ensures old(nodes) <= nodes
      ensures forall i :: |old(nodes)| <= i < |nodes| ==> fresh(nodes[i]) && fresh(nodes[i].ptr)
    {
      DataLength();
      grown := Data();
      assert grown[..m_capacity] == grown && (buf == [] ==> Splice(grown, m_position, buf) == grown);
      if |buf| > 0 {
        grown := WriteSome(buf);
      }
    }

    /** Write() as one overwrite of the flat contents. */
    method Append(buf: seq<byte>)
      requires Valid()
      modifies this`m_position, this`m_capacity, this`m_size, this`m_cur, this`blk, this`nodes, this`place
      modifies nodes, Arrays()
      ensures Valid() && m_position == old(m_position) + |buf| && m_size == Max(old(m_size), m_position)
      ensures Overwritten(old(Data()), old(m_position), buf, Data())
      ensures old(nodes) <= nodes
      ensures forall i :: |old(nodes)| <= i < |nodes| ==> fresh(nodes[i]) && fresh(nodes[i].ptr)
    {
      ghost var before, at := Data(), m_position;
      ghost var grown := Write(buf);
      SpliceOverwrites(before, grown, at, buf);
    }

    /** One more overwrite: `done` has been written from `at` on. */
    method AppendMore(buf: seq<byte>, ghost before: seq<byte>, ghost at: nat, ghost done: seq<byte>)
      requires Valid() && m_position == at + |done| && Overwritten(before, at, done, Data())
      modifies this`m_position, this`m_capacity, this`m_size, this`m_cur, this`blk, this`nodes, this`place
      modifies nodes, Arrays()
      ensures Valid() && m_position == at + |done + buf| && m_size == Max(old(m_size), m_position)
      ensures Overwritten(before, at, done + buf, Data())
      ensures old(nodes) <= nodes
      ensures forall i :: |old(nodes)| <= i < |nodes| ==> fresh(nodes[i]) && fresh(nodes[i].ptr)
    {
      ghost var mid, p := Data(), m_position;
      Append(buf);
      OverwrittenTwice(before, at, done, mid, p, buf, Data());
    }

    method WriteSome(buf: seq<byte>) returns (ghost grown: seq<byte>)
      requires Valid() && |buf| > 0
      modifies this`m_position, this`m_capacity, this`m_size, this`m_cur, this`blk, this`nodes, this`place
      modifies nodes, Arrays()
      ensures Valid()
      ensures m_position == old(m_position) + |buf| && m_size == Max(old(m_size), m_position)
      ensures |old(Data())| == old(m_capacity) <= |grown| == m_capacity && grown[..old(m_capacity)] == old(Data())
      ensures Data() == Splice(grown, old(m_position), buf)
      ensures old(nodes) <= nodes
      ensures forall i :: |old(nodes)| <= i < |nodes| ==> fresh(nodes[i]) && fresh(nodes[i].ptr)
    {
      Extend(|buf|);
      grown := Data();
      Overwrite(buf);
    }

    method Overwrite(buf: seq<byte>)
      requires Valid() && |buf| > 0 && m_position + |buf| <= m_capacity
      modifies this`m_position, this`m_size, this`m_cur, this`blk, Arrays()
      ensures Valid() && m_position == old(m_position) + |buf| && m_size == Max(old(m_size), m_position)
      ensures |old(Data())| == m_capacity && Data() == Splice(old(Data()), old(m_position), buf)
    {
      DataLength();
      CursorIsQuotient();
      OffsetInBlock();
      var npos := m_position % m_baseSize;
      WriteLoop(npos, buf);
      FixSize();
    }

    /** m_size follows the cursor. */
    method FixSize()
      requires Chain() && Cursor() && m_size <= m_capacity
      modifies this`m_size
      ensures Valid() && m_size == Max(old(m_size), m_position)
      ensures Data() == old(Data())
    {
      CursorIsQuotient();
      if m_position > m_size {
        m_size := m_position;
      }
      assert Blocks() == old(Blocks());
    }

    /** The memory of the current block is the contents at the cursor. */
    lemma MemoryHere(npos: nat, n: nat, end: nat)
      requires Chain() && Cursor() && m_cur != null
      requires npos == m_position - Start(m_baseSize, blk) && npos + n <= m_baseSize && end == m_position + n
      ensures end <= |Data()| && m_cur.ptr[npos..npos + n] == Data()[m_position..end]
    {
      DataLength();
      ConcatSlice(Blocks(), m_baseSize, blk, npos, n);
      assert Blocks()[blk] == m_cur.ptr[..];
    }

    /** Load n bytes and move over them. */
    method Take(npos: nat, n: nat, ghost end: nat) returns (chunk: seq<byte>)
      requires Chain() && Cursor() && m_cur != null
      requires npos == m_position - Start(m_baseSize, blk) && npos + n <= m_baseSize && end == m_position + n
      modifies this`m_position, this`m_cur, this`blk
      ensures Chain() && Cursor() && m_position == end
      ensures m_position - Start(m_baseSize, blk) == if npos + n == m_baseSize then 0 else npos + n
      ensures m_position < m_capacity ==> m_cur != null && m_cur.size == m_baseSize
      ensures Data() == old(Data()) && old(m_position) <= end <= |Data()|
      ensures chunk == Data()[old(m_position)..end]
    {
      chunk := m_cur.ptr[npos..npos + n];
      MemoryHere(npos, n, end);
      Step(npos, n);
      CursorIsQuotient();
    }

    method ReadLoop(offset: nat, n: nat) returns (buf: seq<byte>)
      requires Chain() && Cursor() && m_cur != null && |Data()| == m_capacity && m_position + n <= m_capacity
      requires offset == m_position - Start(m_baseSize, blk)
      modifies this`m_position, this`m_cur, this`blk
      ensures Chain() && Cursor() && m_position == old(m_position) + n
      ensures Data() == old(Data()) && buf == Data()[old(m_position)..m_position]
    {
      ghost var d, at := Data(), m_position;
      var size := n;
      var npos := offset;
      var ncap := m_cur.size - npos;
      buf := [];
      while size > 0
        invariant 0 <= size <= n
        invariant Chain() && Cursor() && m_position + size == at + n
        invariant size > 0 ==> m_cur != null && npos == m_position - Start(m_baseSize, blk) && ncap == m_baseSize - npos
        invariant Data() == d && at <= m_position && buf == d[at..m_position]
      {
        var c := if ncap >= size then size else ncap;
        ghost var p, end := m_position, m_position + c;
        var chunk := Take(npos, c, end);
        SliceNext(d, at, p, end);
        buf := buf + chunk;
        size := size - c;
        if size > 0 {
          ncap := m_cur.size;
          npos := 0;
        }
      }
    }

    /** Read n bytes at the cursor and move over them; on an error nothing moves. */
    method Read(n: nat) returns (r: ReadResult)
      requires Valid()
      modifies this`m_position, this`m_cur, this`blk
      ensures Valid() && Data() == old(Data()) && |Data()| == m_capacity
      ensures r == ReadAt(Data(), old(m_position), m_size, n)
      ensures m_position == if r.Bytes? then old(m_position) + n else old(m_position)
    {
      DataLength();
      CursorIsQuotient();
      if n > m_size - m_position {
        return NotEnough;
      }
      if m_cur == null {
        return NullBlock;
      }
      OffsetInBlock();
      var npos := m_position % m_baseSize;
      var buf := ReadLoop(npos, n);
      r := Bytes(buf);
    }

    /** Move the cursor to v, growing m_size when v lies beyond it. */
    method SetPosition(v: nat) returns (ok: bool)
      requires Valid()
      modifies this`m_position, this`m_size, this`m_cur, this`blk
      ensures Valid() && Data() == old(Data())
      ensures ok <==> v <= m_capacity
      ensures m_position == (if ok then v else old(m_position))
      ensures m_size == (if ok then Max(old(m_size), v) else old(m_size))
    {
      if v > m_capacity {
        return false;
      }
      m_position := v;
      if m_position > m_size {
        m_size := m_position;
      }
      Seek(v);
      assert Blocks() == old(Blocks());
      ok := true;
    }

    /** Walk from m_root to the block of position v. */
    method Seek(target: nat)
      requires Chain() && target == m_position <= m_capacity
      modifies this`m_cur, this`blk
      ensures Chain() && Cursor()
    {
      var v := target;
      m_cur := m_root;
      blk := 0;
      while v > m_cur.size
        invariant 0 <= blk < |nodes| && m_cur == nodes[blk] && 0 <= v
        invariant v + Start(m_baseSize, blk) == target
        decreases v
      {
        v := v - m_cur.size;
        m_cur := m_cur.next;
        blk := blk + 1;
      }
      assert Start(m_baseSize, blk + 1) == Start(m_baseSize, blk) + m_baseSize;
      if v == m_cur.size {
        m_cur := m_cur.next;
        blk := blk + 1;
      }
    }

    /** Back to one empty block; its memory is kept as it is. */
    method Clear()
      requires Valid()
      modifies this, m_root
      ensures Valid() && m_position == 0 && m_size == 0 && m_capacity == m_baseSize
      ensures nodes == old(nodes)[..1]
    {
      m_position, m_size := 0, 0;
      m_capacity := m_baseSize;
      var tmp := m_root.next;
      ghost var at := 1;
      while tmp != null
        invariant 1 <= at <= |nodes| && tmp == (if at < |nodes| then nodes[at] else null)
        decreases |nodes| - at
      {
        assert at < |nodes| - 1 ==> nodes[at].next == nodes[at + 1];
        tmp := tmp.next;
        at := at + 1;
      }
      m_cur := m_root;
      m_root.next := null;
      nodes, blk := nodes[..1], 0;
      assert Start(m_baseSize, 1) == Start(m_baseSize, 0) + m_baseSize;
    }

    // -------------------------------------------------------------- scatter/gather views

    /** The view of `len` bytes at the cursor. */
    ghost function ViewHere(len: nat): seq<Iov>
      requires Chain() && Cursor()
      reads this, nodes
    {
      View(nodes, m_baseSize, blk, m_position - Start(m_baseSize, blk), len)
    }

    /** A view gathers exactly the flat contents it stands for. */
    lemma {:induction false} ViewGathers(k: nat, off: nat, len: nat, p: nat, end: nat)
      requires Chain() && k < |nodes| && off < m_baseSize
      requires p == Start(m_baseSize, k) + off && end == p + len <= m_capacity
      ensures |Data()| == m_capacity
      ensures InBounds(View(nodes, m_baseSize, k, off, len))
      ensures Gather(View(nodes, m_baseSize, k, off, len)) == Data()[p..end]
      decreases len
    {
      DataLength();
      if len > 0 {
        var c := Min(m_baseSize - off, len);
        var mid := p + c;
        if len > c {
          StartOrder(m_baseSize, k, |nodes|);
          ViewGathers(k + 1, 0, len - c, mid, end);
        }
        PrependPiece(k, off, c, View(nodes, m_baseSize, k + 1, 0, len - c), p, mid, end);
      }
    }

    lemma PrependPiece(k: nat, off: nat, c: nat, rest: seq<Iov>, p: nat, mid: nat, end: nat)
      requires Chain() && k < |nodes| && off + c <= m_baseSize
      requires p == Start(m_baseSize, k) + off && mid == p + c && mid <= end <= m_capacity == |Data()|
      requires InBounds(rest) && Gather(rest) == Data()[mid..end]
      ensures InBounds([Iov(nodes[k].ptr, off, c)] + rest)
      ensures Gather([Iov(nodes[k].ptr, off, c)] + rest) == Data()[p..end]
    {
      FirstPiece(k, off, c, p, mid);
      GatherCons(Iov(nodes[k].ptr, off, c), rest);
      SliceNext(Data(), p, mid, end);
    }

    lemma FirstPiece(k: nat, off: nat, c: nat, p: nat, mid: nat)
      requires Chain() && k < |nodes| && off + c <= m_baseSize
      requires p == Start(m_baseSize, k) + off && mid == p + c
      ensures mid <= |Data()| && nodes[k].ptr[off..off + c] == Data()[p..mid]
    {
      DataLength();
      ConcatSlice(Blocks(), m_baseSize, k, off, c);
      assert Blocks()[k] == nodes[k].ptr[..];
    }

    method Collect(offset: nat, len: nat) returns (iovs: seq<Iov>)
      requires Chain() && Cursor() && m_cur != null && m_position + len <= m_capacity
      requires offset == m_position - Start(m_baseSize, blk)
      ensures iovs == View(nodes, m_baseSize, blk, offset, len)
      ensures Data() == old(Data())
    {
      var left: nat, npos: nat, ncap: nat := len, offset, m_cur.size - offset;
      var cur := m_cur;
      ghost var k: nat := blk;
      iovs := [];
      while left > 0
        invariant left <= len
        invariant left > 0 ==> k < |nodes| && cur == nodes[k] && npos < m_baseSize && ncap == m_baseSize - npos
        invariant left > 0 ==> Start(m_baseSize, k) + npos + left == m_position + len
        invariant iovs + View(nodes, m_baseSize, k, npos, left) == View(nodes, m_baseSize, blk, offset, len)
      {
        if ncap >= left {
          iovs := iovs + [Iov(cur.ptr, npos, left)];
          assert View(nodes, m_baseSize, k + 1, 0, 0) == [];
          left := 0;
          k, npos := k + 1, 0;
        } else {
          iovs := iovs + [Iov(cur.ptr, npos, ncap)];
          left := left - ncap;
          StartOrder(m_baseSize, k, |nodes|);
          cur := cur.next;
          k := k + 1;
          ncap := cur.size;
          npos := 0;
        }
      }
      assert Blocks() == old(Blocks());
    }

    /** The unread contents, at most len bytes of them, as pieces of memory; nothing moves. */
    method GetReadBuffers(len: nat) returns (size: nat, iovs: seq<Iov>)
      requires Valid()
      ensures size == Min(len, m_size - m_position) && iovs == ViewHere(size)
      ensures Data() == old(Data()) && |Data()| == m_capacity && InBounds(iovs)
      ensures Gather(iovs) == Data()[m_position..m_position + size]
    {
      size := Min(len, m_size - m_position);
      if size == 0 {
        DataLength();
        return 0, [];
      }
      iovs := CollectHere(size);
    }

    /** Room for len more bytes after the cursor, as pieces of memory; the cursor stays. */
    method GetWriteBuffers(len: nat) returns (iovs: seq<Iov>)
      requires Valid()
      modifies this`m_capacity, this`m_cur, this`nodes, this`place, nodes
      ensures Valid() && m_position + len <= m_capacity && old(m_capacity) <= m_capacity
      ensures iovs == ViewHere(len)
      ensures |old(Data())| == old(m_capacity) && |Data()| == m_capacity
      ensures Data()[..old(m_capacity)] == old(Data())
      ensures old(nodes) <= nodes
      ensures forall i :: |old(nodes)| <= i < |nodes| ==> fresh(nodes[i]) && fresh(nodes[i].ptr)
    {
      if len == 0 {
        DataLength();
        assert Data()[..m_capacity] == Data();
        return [];
      }
      Extend(len);
      iovs := CollectHere(len);
    }

    method CollectHere(len: nat) returns (iovs: seq<Iov>)
      requires Valid() && len > 0 && m_position + len <= m_capacity
      ensures iovs == ViewHere(len) && Data() == old(Data())
      ensures |Data()| == m_capacity && InBounds(iovs)
      ensures Gather(iovs) == Data()[m_position..m_position + len]
    {
      CursorIsQuotient();
      OffsetInBlock();
      iovs := Collect(m_position % m_baseSize, len);
      ViewGathers(blk, m_position - Start(m_baseSize, blk), len, m_position, m_position + len);
    }

    /** What recvmsg() does to memory: the received bytes fill the pieces in order.  Filling
        the view at the cursor is the same as overwriting the flat contents there. */
    method Scatter(iovs: seq<Iov>, len: nat, data: seq<byte>)
      requires Chain() && Cursor() && m_position + len <= m_capacity == |Data()|
      requires iovs == ViewHere(len) && 0 < |data| <= len
      modifies Arrays()
      ensures Data() == Splice(old(Data()), m_position, data)
    {
      CursorIsQuotient();
      ScatterLoop(iovs, len, data, m_position, m_position - Start(m_baseSize, blk));
    }

    method ScatterLoop(iovs: seq<Iov>, len: nat, data: seq<byte>, ghost at: nat, ghost offset: nat)
      requires Chain() && at + len <= m_capacity == |Data()| && |data| <= len
      requires blk < |nodes| && offset < m_baseSize && at == Start(m_baseSize, blk) + offset
      requires iovs == View(nodes, m_baseSize, blk, offset, len)
      modifies Arrays()
      ensures Data() == Splice(old(Data()), at, data)
    {
      ghost var before := Data();
      ghost var k: nat, off: nat, room: nat := blk, offset, len;
      var i, done := 0, 0;
      while done < |data|
        invariant 0 <= done <= |data| && 0 <= i <= |iovs|
        invariant done < |data| ==> k < |nodes| && off < m_baseSize && at + done == Start(m_baseSize, k) + off
        invariant done < |data| ==> room == len - done && iovs[i..] == View(nodes, m_baseSize, k, off, room)
        invariant Data() == Written(before, at, data, done)
      {
        ghost var rest := NextPiece(iovs, i, k, off, room, at + len);
        var next := done + Min(iovs[i].len, |data| - done);
        StoreNext(iovs[i], data, done, next, before, at, k, off);
        done, i := next, i + 1;
        k, off, room := k + 1, 0, rest;
      }
      WrittenAll(before, at, data, done);
    }

    method StoreNext(iov: Iov, data: seq<byte>, done: nat, next: nat,
                     ghost before: seq<byte>, ghost at: nat, ghost k: nat, ghost off: nat)
      requires Chain() && k < |nodes| && done <= next <= |data| && off + (next - done) <= m_baseSize
      requires iov.base == nodes[k].ptr && iov.off == off && at + done == Start(m_baseSize, k) + off
      requires at + |data| <= |before| && Data() == Written(before, at, data, done)
      modifies Arrays()
      ensures Data() == Written(before, at, data, next)
    {
      ghost var p := at + done;
      var chunk := data[done..next];
      WrittenNext(before, at, data, done, next, p);
      StorePiece(iov, chunk, k, off, p);
    }

    /** The head of a view, and what is left of it. */
    lemma NextPiece(iovs: seq<Iov>, i: nat, k: nat, off: nat, room: nat, end: nat) returns (rest: nat)
      requires Chain() && i <= |iovs| && iovs[i..] == View(nodes, m_baseSize, k, off, room)
      requires room > 0 && k < |nodes| && off < m_baseSize
      requires Start(m_baseSize, k) + off + room == end <= m_capacity
      ensures i < |iovs| && iovs[i] == Iov(nodes[k].ptr, off, Min(m_baseSize - off, room))
      ensures rest == room - iovs[i].len && iovs[i + 1..] == View(nodes, m_baseSize, k + 1, 0, rest)
      ensures rest > 0 ==> k + 1 < |nodes| && Start(m_baseSize, k + 1) + rest == end
    {
      assert iovs[i] == iovs[i..][0] && iovs[i + 1..] == iovs[i..][1..];
      rest := room - iovs[i].len;
      if k + 1 < |nodes| { StartOrder(m_baseSize, k, |nodes|); }
    }

    method StorePiece(iov: Iov, chunk: seq<byte>, ghost k: nat, ghost off: nat, ghost p: nat)
      requires Chain() && k < |nodes| && off + |chunk| <= m_baseSize
      requires iov.base == nodes[k].ptr && iov.off == off && p == Start(m_baseSize, k) + off
      modifies Arrays()
      ensures p + |chunk| <= |old(Data())| && Data() == Splice(old(Data()), p, chunk)
    {
      ghost var before := Blocks();
      CopyIn(iov.base, iov.off, chunk);
      SplicedBlock(before, k, off, chunk);
    }
  }

  /** The pieces of memory that hold `len` bytes starting in block k at offset off. */
  ghost function View(nodes: seq<Node>, b: nat, k: nat, off: nat, len: nat): seq<Iov>
    decreases len
  {
    if len == 0 || k >= |nodes| || off >= b then []
    else
      var c := Min(b - off, len);
      [Iov(nodes[k].ptr, off, c)] + View(nodes, b, k + 1, 0, len - c)
  }

  ghost predicate InBounds(iovs: seq<Iov>) {
    forall i :: 0 <= i < |iovs| ==> iovs[i].off + iovs[i].len <= iovs[i].base.Length
  }

  ghost function Buffers(iovs: seq<Iov>): set<array<byte>> {
    set i | 0 <= i < |iovs| :: iovs[i].base
  }

  /** The bytes that sendmsg() would take from a list of pieces. */
  ghost function Gather(iovs: seq<Iov>): seq<byte>
    requires InBounds(iovs)
    reads Buffers(iovs)
  {
    if iovs == [] then []
    else iovs[0].base[iovs[0].off..iovs[0].off + iovs[0].len] + Gather(iovs[1..])
  }

  lemma GatherCons(iov: Iov, rest: seq<Iov>)
    requires iov.off + iov.len <= iov.base.Length && InBounds(rest)
    ensures InBounds([iov] + rest)
    ensures Gather([iov] + rest) == iov.base[iov.off..iov.off + iov.len] + Gather(rest)
  {
    assert ([iov] + rest)[1..] == rest;
  }
}
