/** A flat byte sequence cut into blocks of one fixed size. */
module Blocks {

  type octet = n: nat | n < 0x100

  datatype byte = Byte(code: octet)

  function Max(a: int, b: int): int { if a >= b then a else b }

  function Min(a: int, b: int): int { if a <= b then a else b }

  /** d with the bytes at `at` replaced by src. */
  function Splice(d: seq<byte>, at: nat, src: seq<byte>): (r: seq<byte>)
    requires at + |src| <= |d|
    ensures |r| == |d|
  {
    d[..at] + src + d[at + |src|..]
  }

  lemma SpliceTwice(d: seq<byte>, at: nat, first: seq<byte>, second: seq<byte>)
    requires at + |first| + |second| <= |d|
    ensures Splice(Splice(d, at, first), at + |first|, second) == Splice(d, at, first + second)
  {
  }

  ghost predicate Uniform(blocks: seq<seq<byte>>, b: nat) {
    forall k :: 0 <= k < |blocks| ==> |blocks[k]| == b
  }

  /** Where block k starts when every block has b bytes. */
  function Start(b: nat, k: nat): nat {
    if k == 0 then 0 else Start(b, k - 1) + b
  }

  lemma {:induction false} StartIsProduct(b: nat, k: nat)
    ensures Start(b, k) == k * b
  {
    if k > 0 {
      StartIsProduct(b, k - 1);
    }
  }

  lemma {:induction false} StartSum(b: nat, j: nat, k: nat)
    ensures Start(b, j + k) == Start(b, j) + Start(b, k)
  {
    if k > 0 {
      StartSum(b, j, k - 1);
    }
  }

  lemma {:induction false} StartOrder(b: nat, j: nat, k: nat)
    requires j < k
    ensures Start(b, j) + b <= Start(b, k)
  {
    if j < k - 1 {
      StartOrder(b, j, k - 1);
    }
  }

  /** A position inside block k has quotient k. */
  lemma InsideBlock(b: nat, k: nat, p: nat)
    requires Start(b, k) <= p < Start(b, k) + b
    ensures p / b == k && p % b == p - Start(b, k)
  {
    StartIsProduct(b, k);
    var off := p - k * b;
    var q := p / b;
    assert p == q * b + p % b;
    MulOrder(q + 1, k, b);
    MulOrder(k + 1, q, b);
  }

  lemma MulOrder(x: nat, y: nat, b: nat)
    ensures x <= y ==> x * b <= y * b
  {
    if x <= y {
      assert y * b == x * b + (y - x) * b;
    }
  }

  /** The rounded-up quotient is the least number of blocks that holds need bytes. */
  lemma RoundUp(b: nat, need: nat, count: nat)
    requires b > 0 && need > 0 && count == need / b + (if need % b != 0 then 1 else 0)
    ensures count > 0 && Start(b, count - 1) < need <= Start(b, count)
  {
    assert need == (need / b) * b + need % b;
    StartIsProduct(b, count);
    StartIsProduct(b, count - 1);
  }

  // ---------------------------------------------------------------- contents

  /** d after storing the first n bytes of buf at `at`, one by one. */
  function Written(d: seq<byte>, at: nat, buf: seq<byte>, n: nat): (r: seq<byte>)
    requires at + |buf| <= |d| && n <= |buf|
    ensures |r| == |d|
  {
    if n == 0 then d else Written(d, at, buf, n - 1)[at + n - 1 := buf[n - 1]]
  }

  lemma {:induction false} WrittenIsSplice(d: seq<byte>, at: nat, buf: seq<byte>, n: nat)
    requires at + |buf| <= |d| && n <= |buf|
    ensures Written(d, at, buf, n) == Splice(d, at, buf[..n])
  {
    if n > 0 {
      WrittenIsSplice(d, at, buf, n - 1);
      assert buf[..n] == buf[..n - 1] + [buf[n - 1]];
    }
  }

  /** Storing the bytes from done up to next in one go, at p. */
  lemma WrittenNext(d: seq<byte>, at: nat, buf: seq<byte>, done: nat, next: nat, p: nat)
    requires at + |buf| <= |d| && done <= next <= |buf| && p == at + done
    ensures Splice(Written(d, at, buf, done), p, buf[done..next]) == Written(d, at, buf, next)
  {
    WrittenIsSplice(d, at, buf, done);
    WrittenIsSplice(d, at, buf, next);
    SpliceTwice(d, at, buf[..done], buf[done..next]);
    assert buf[..done] + buf[done..next] == buf[..next];
  }

  lemma WrittenAll(d: seq<byte>, at: nat, buf: seq<byte>, n: nat)
    requires at + |buf| <= |d| && n == |buf|
    ensures Written(d, at, buf, n) == Splice(d, at, buf)
  {
    WrittenIsSplice(d, at, buf, n);
    assert buf[..n] == buf;
  }

  lemma SliceNext(d: seq<byte>, at: nat, p: nat, q: nat)
    requires at <= p <= q <= |d|
    ensures d[at..p] + d[p..q] == d[at..q]
  {
  }

  function Concat(blocks: seq<seq<byte>>): seq<byte> {
    if blocks == [] then [] else Concat(blocks[..|blocks| - 1]) + blocks[|blocks| - 1]
  }

  lemma {:induction false} ConcatLength(blocks: seq<seq<byte>>, b: nat)
    requires Uniform(blocks, b)
    ensures |Concat(blocks)| == Start(b, |blocks|)
  {
    if blocks != [] {
      ConcatLength(blocks[..|blocks| - 1], b);
    }
  }

  lemma {:induction false} ConcatAppend(front: seq<seq<byte>>, back: seq<seq<byte>>)
    ensures Concat(front + back) == Concat(front) + Concat(back)
  {
    if back == [] {
      assert front + back == front;
    } else {
      var n := |back| - 1;
      ConcatAppend(front, back[..n]);
      assert (front + back)[..|front + back| - 1] == front + back[..n];
    }
  }

  /** The flat sequence around block k. */
  lemma ConcatAround(blocks: seq<seq<byte>>, b: nat, k: nat)
    requires Uniform(blocks, b) && k < |blocks|
    ensures |Concat(blocks[..k])| == Start(b, k)
    ensures Concat(blocks) == Concat(blocks[..k]) + blocks[k] + Concat(blocks[k + 1..])
  {
    var front := blocks[..k + 1];
    ConcatLength(blocks[..k], b);
    assert front[..k] == blocks[..k] && front[k] == blocks[k];
    ConcatAppend(front, blocks[k + 1..]);
    assert blocks == front + blocks[k + 1..];
  }

  lemma ConcatReplace(blocks: seq<seq<byte>>, b: nat, k: nat, block: seq<byte>)
    requires Uniform(blocks, b) && k < |blocks| && |block| == b
    ensures Concat(blocks[k := block]) == Concat(blocks[..k]) + block + Concat(blocks[k + 1..])
  {
    var r := blocks[k := block];
    ConcatAround(r, b, k);
    assert r[..k] == blocks[..k] && r[k + 1..] == blocks[k + 1..];
  }

  /** Overwriting inside one block overwrites the flat sequence at the same place. */
  lemma ConcatSplice(blocks: seq<seq<byte>>, b: nat, k: nat, off: nat, src: seq<byte>)
    requires Uniform(blocks, b) && k < |blocks| && off + |src| <= b
    ensures Start(b, k) + off + |src| <= |Concat(blocks)|
    ensures Concat(blocks[k := Splice(blocks[k], off, src)]) == Splice(Concat(blocks), Start(b, k) + off, src)
  {
    var front, back, at := Concat(blocks[..k]), Concat(blocks[k + 1..]), Start(b, k) + off;
    ConcatAround(blocks, b, k);
    SpliceMiddle(front, blocks[k], back, Concat(blocks), off, src, at);
    ConcatReplace(blocks, b, k, Splice(blocks[k], off, src));
  }

  lemma SpliceMiddle(front: seq<byte>, mid: seq<byte>, back: seq<byte>, all: seq<byte>, off: nat,
                     src: seq<byte>, at: nat)
    requires off + |src| <= |mid| && all == front + mid + back && at == |front| + off
    ensures at + |src| <= |all| && front + Splice(mid, off, src) + back == Splice(all, at, src)
  {
  }

  /** Reading inside one block reads the flat sequence at the same place. */
  lemma ConcatSlice(blocks: seq<seq<byte>>, b: nat, k: nat, off: nat, n: nat)
    requires Uniform(blocks, b) && k < |blocks| && off + n <= b
    ensures Start(b, k) + off + n <= |Concat(blocks)|
    ensures Concat(blocks)[Start(b, k) + off..Start(b, k) + off + n] == blocks[k][off..off + n]
  {
    ConcatAround(blocks, b, k);
    SliceMiddle(Concat(blocks[..k]), blocks[k], Concat(blocks[k + 1..]), Concat(blocks), off, n, Start(b, k) + off);
  }

  lemma SliceMiddle(front: seq<byte>, mid: seq<byte>, back: seq<byte>, all: seq<byte>, off: nat, n: nat, at: nat)
    requires off + n <= |mid| && all == front + mid + back && at == |front| + off
    ensures at + n <= |all| && all[at..at + n] == mid[off..off + n]
  {
    var a, m := all[at..at + n], mid[off..off + n];
    assert forall i :: 0 <= i < n ==> a[i] == m[i];
  }
}
