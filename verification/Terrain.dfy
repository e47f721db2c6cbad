/** Terrain2D: a packed bitset that refines a set of grid cells, and the circles dug out of
    it.  Floats are reals. */
module Terrains {
  import opened Blocks

  type Cell = (int, int)

  datatype Circle = Circle(cx: real, cy: real, r: real)

  // ---------------------------------------------------------------- bits

  predicate Bit(v: bv8, off: bv8)
    requires off < 8
  {
    (v >> off) & 1 == 1
  }

  function WithBit(v: bv8, off: bv8): bv8
    requires off < 8
  {
    v | (1 << off)
  }

  function WithoutBit(v: bv8, off: bv8): bv8
    requires off < 8
  {
    v & !(1 << off)
  }

  /** Writing one bit of a byte changes that bit alone. */
  lemma BitAfterSet(v: bv8, a: bv8, b: bv8)
    requires a < 8 && b < 8
    ensures Bit(WithBit(v, a), b) == (a == b || Bit(v, b))
  {
  }

  lemma BitAfterClear(v: bv8, a: bv8, b: bv8)
    requires a < 8 && b < 8
    ensures Bit(WithoutBit(v, a), b) == (a != b && Bit(v, b))
  {
  }

  // ---------------------------------------------------------------- packing

  function Index(x: int, y: int, w: int): int { x + y * w }

  /** byteIndex() and bitOffset() of a bit number. */
  function ByteOf(i: int): int { i / 8 }

  function OffsetOf(i: int): (off: bv8)
    ensures off < 8
  {
    var r := i % 8;
    r as bv8
  }

  lemma SameOffset(a: int, b: int)
    requires 0 <= a < 8 && 0 <= b < 8 && a as bv8 == b as bv8
    ensures a == b
  {
  }

  predicate Inside(x: int, y: int, w: int, h: int) { 0 <= x < w && 0 <= y < h }

  /** Every cell has its bit within the first w * h bits. */
  lemma IndexInRange(x: int, y: int, w: int, h: int)
    requires Inside(x, y, w, h)
    ensures 0 <= Index(x, y, w) < w * h
  {
    MulOrder(0, y, w);
    MulOrder(y + 1, h, w);
    assert (y + 1) * w == y * w + w;
  }

  /** Cells lie row by row from the bottom, each row from left to right. */
  lemma RowMajor(x: int, y: int, w: int)
    ensures Index(0, 0, w) == 0 && Index(x + 1, y, w) == Index(x, y, w) + 1
    ensures Index(x, y + 1, w) == Index(x, y, w) + w
  {
    assert (y + 1) * w == y * w + w;
  }

  /** No two cells share a bit. */
  lemma IndexInjective(x: int, y: int, p: int, q: int, w: int)
    requires 0 <= x < w && 0 <= p < w && 0 <= y && 0 <= q && Index(x, y, w) == Index(p, q, w)
    ensures x == p && y == q
  {
    assert (y + 1) * w == y * w + w && (q + 1) * w == q * w + w;
    if y < q {
      MulOrder(y + 1, q, w);
    } else if q < y {
      MulOrder(q + 1, y, w);
    }
  }

  lemma SameBit(i: int, j: int)
    requires ByteOf(i) == ByteOf(j) && OffsetOf(i) == OffsetOf(j)
    ensures i == j
  {
    SameOffset(i % 8, j % 8);
  }

  // ---------------------------------------------------------------- discs

  predicate InDisc(c: Cell, k: Circle) {
    var dx, dy := c.0 as real - k.cx, c.1 as real - k.cy;
    dx * dx + dy * dy <= k.r * k.r
  }

  /** Conversion to int: towards zero. */
  function Truncate(a: real): int { if a >= 0.0 then a.Floor else -((-a).Floor) }

  predicate InBox(c: Cell, k: Circle) {
    && Truncate(k.cx - k.r) <= c.0 <= Truncate(k.cx + k.r)
    && Truncate(k.cy - k.r) <= c.1 <= Truncate(k.cy + k.r)
  }

  lemma Product(a: real, b: real)
    requires a > 0.0 && b > 0.0
    ensures a * b > 0.0
  {
  }

  lemma SquareOrder(d: real, r: real)
    requires r >= 0.0 && d * d <= r * r
    ensures -r <= d <= r
  {
    if d > r {
      Product(d - r, d + r);
    } else if d < -r {
      Product(-d - r, r - d);
    }
  }

  lemma TruncatedInterval(x: int, center: real, r: real)
    requires x >= 0 && -r <= x as real - center <= r
    ensures Truncate(center - r) <= x <= Truncate(center + r)
  {
  }

  /** The truncated bounding box misses no cell of the disc. */
  lemma BoxCoversDisc(c: Cell, k: Circle)
    requires k.r >= 0.0 && c.0 >= 0 && c.1 >= 0 && InDisc(c, k)
    ensures InBox(c, k)
  {
    var dx, dy := c.0 as real - k.cx, c.1 as real - k.cy;
    assert dx * dx >= 0.0 && dy * dy >= 0.0;
    SquareOrder(dx, k.r);
    SquareOrder(dy, k.r);
    TruncatedInterval(c.0, k.cx, k.r);
    TruncatedInterval(c.1, k.cy, k.r);
  }

  /** The rim belongs to the disc: the cell at exactly the radius goes, the next one stays. */
  lemma RimIsDug(x: int, y: int, r: nat)
    ensures var k := Circle(x as real, y as real, r as real);
            && InDisc((x + r, y), k) && InDisc((x, y + r), k)
            && !InDisc((x + r + 1, y), k) && !InDisc((x, y + r + 1), k)
  {
    var a: real := r as real;
    assert (x + r) as real - x as real == a && (y + r) as real - y as real == a;
    assert (x + r + 1) as real - x as real == a + 1.0 && (y + r + 1) as real - y as real == a + 1.0;
    assert (a + 1.0) * (a + 1.0) == a * a + 2.0 * a + 1.0;
  }

  /** A negative radius is not an empty disc: the square hides its sign and truncation towards
      zero leaves the box open at the origin. */
  lemma NegativeRadiusDigs()
    ensures InDisc((0, 0), Circle(0.0, 0.0, -0.5)) && InBox((0, 0), Circle(0.0, 0.0, -0.5))
  {
    assert (0.5).Floor == 0;
  }

  /** One circle dug out of a set of cells. */
  function Dug(cells: set<Cell>, k: Circle): set<Cell> {
    set c | c in cells && !InDisc(c, k)
  }

  function DugAll(cells: set<Cell>, ks: seq<Circle>): set<Cell> {
    if ks == [] then cells else Dug(DugAll(cells, ks[..|ks| - 1]), ks[|ks| - 1])
  }

  /** What is left after a sequence of circles is what lies in none of them. */
  lemma {:induction false} DugAllIsDifference(cells: set<Cell>, ks: seq<Circle>)
    ensures DugAll(cells, ks) == set c | c in cells && forall i :: 0 <= i < |ks| ==> !InDisc(c, ks[i])
  {
    if ks != [] {
      var front, last := ks[..|ks| - 1], ks[|ks| - 1];
      DugAllIsDifference(cells, front);
      forall c | c in cells
        ensures (forall i :: 0 <= i < |ks| ==> !InDisc(c, ks[i]))
                <==> (forall i :: 0 <= i < |front| ==> !InDisc(c, front[i])) && !InDisc(c, last)
      {
        if (forall i :: 0 <= i < |front| ==> !InDisc(c, front[i])) && !InDisc(c, last) {
          forall i | 0 <= i < |ks| ensures !InDisc(c, ks[i]) {
            if i < |front| { assert front[i] == ks[i]; }
          }
        }
      }
    }
  }

  /** The order in which circles are dug does not matter. */
  lemma OrderDoesNotMatter(cells: set<Cell>, ks: seq<Circle>, ls: seq<Circle>)
    requires multiset(ks) == multiset(ls)
    ensures DugAll(cells, ks) == DugAll(cells, ls)
  {
    DugAllIsDifference(cells, ks);
    DugAllIsDifference(cells, ls);
    forall c | c in cells
      ensures (forall i :: 0 <= i < |ks| ==> !InDisc(c, ks[i])) <==> (forall i :: 0 <= i < |ls| ==> !InDisc(c, ls[i]))
    {
      assert forall k :: k in ks <==> k in multiset(ks);
      assert forall k :: k in ls <==> k in multiset(ls);
      assert (forall i :: 0 <= i < |ks| ==> !InDisc(c, ks[i])) <==> (forall k :: k in ks ==> !InDisc(c, k));
      assert (forall i :: 0 <= i < |ls| ==> !InDisc(c, ls[i])) <==> (forall k :: k in ls ==> !InDisc(c, k));
    }
  }

  // ---------------------------------------------------------------- column heights

  /** One more than the top cell of column x below h, or 0. */
  function Height(cells: set<Cell>, x: int, h: int): (r: int)
    ensures 0 <= r
    ensures r > 0 ==> r <= h && (x, r - 1) in cells
    ensures forall y :: r <= y < h ==> (x, y) !in cells
    decreases Max(h, 0)
  {
    if h <= 0 then 0 else if (x, h - 1) in cells then h else Height(cells, x, h - 1)
  }

  /** Digging never raises a column. */
  lemma HeightsNeverRise(cells: set<Cell>, ks: seq<Circle>, x: int, h: int)
    ensures Height(DugAll(cells, ks), x, h) <= Height(cells, x, h)
  {
    DugAllIsDifference(cells, ks);
    var r := Height(DugAll(cells, ks), x, h);
    if r > 0 {
      assert (x, r - 1) in cells;
    }
  }

  // ---------------------------------------------------------------- the terrain

  class Terrain2D {
    var m_w: int
    var m_h: int
    var m_bits: seq<bv8>

    /** The bitmap is large enough for the grid. */
    ghost predicate Valid()
      reads this
    {
      m_w > 0 && m_h > 0 ==> m_w * m_h <= 8 * |m_bits|
    }

    ghost predicate Solid(x: int, y: int)
      reads this
      requires Valid()
    {
      Inside(x, y, m_w, m_h) && (IndexInRange(x, y, m_w, m_h);
        var i := Index(x, y, m_w);
        Bit(m_bits[ByteOf(i)], OffsetOf(i)))
    }

    ghost function Cells(): set<Cell>
      reads this
      requires Valid()
    {
      set x, y | 0 <= x < m_w && 0 <= y < m_h && Solid(x, y) :: (x, y)
    }

    constructor ()
      ensures Valid() && Cells() == {}
    {
      m_w, m_h, m_bits := 0, 0, [];
    }

    method SetBitmap(data: seq<bv8>, w: int, h: int)
      requires w > 0 && h > 0 ==> w * h <= 8 * |data|
      modifies this
      ensures Valid() && m_bits == data && m_w == w && m_h == h
    {
      m_bits, m_w, m_h := data, w, h;
    }

    method IsSolid(x: int, y: int) returns (b: bool)
      requires Valid()
      ensures b <==> (x, y) in Cells()
      ensures b <==> Inside(x, y, m_w, m_h) && x + y * m_w >= 0 && (x + y * m_w) / 8 < |m_bits|
                     && (m_bits[(x + y * m_w) / 8] >> (((x + y * m_w) % 8) as bv8)) & 1 == 1
    {
      if x < 0 || x >= m_w || y < 0 || y >= m_h {
        return false;
      }
      IndexInRange(x, y, m_w, m_h);
      var i := Index(x, y, m_w);
      b := Bit(m_bits[ByteOf(i)], OffsetOf(i));
    }

    method SetSolid(x: int, y: int, v: bool)
      requires Valid()
      modifies this`m_bits
      ensures Valid()
      ensures Cells() == if !Inside(x, y, m_w, m_h) then old(Cells())
                         else if v then old(Cells()) + {(x, y)} else old(Cells()) - {(x, y)}
    {
      if x < 0 || x >= m_w || y < 0 || y >= m_h {
        return;
      }
      IndexInRange(x, y, m_w, m_h);
      var i := Index(x, y, m_w);
      var idx, off := ByteOf(i), OffsetOf(i);
      m_bits := m_bits[idx := if v then WithBit(m_bits[idx], off) else WithoutBit(m_bits[idx], off)];
      forall p, q | Inside(p, q, m_w, m_h)
        ensures Solid(p, q) <==> if p == x && q == y then v else old(Solid(p, q))
      {
        IndexInRange(p, q, m_w, m_h);
        var j := Index(p, q, m_w);
        BitAfterSet(old(m_bits)[idx], off, OffsetOf(j));
        BitAfterClear(old(m_bits)[idx], off, OffsetOf(j));
        if ByteOf(j) == idx && OffsetOf(j) == off {
          SameBit(i, j);
          IndexInjective(x, y, p, q, m_w);
        }
      }
    }

    /** The inner loop: one column of the bounding box. */
    method DigColumn(x: int, minY: int, maxY: int, k: Circle)
      requires Valid() && 0 <= x < m_w && 0 <= minY && maxY < m_h
      modifies this`m_bits
      ensures Valid()
      ensures forall c :: c in Cells() <==> c in old(Cells()) && !(c.0 == x && minY <= c.1 <= maxY && InDisc(c, k))
    {
      var r2 := k.r * k.r;
      var y := minY;
      while y <= maxY
        invariant minY <= y && Valid()
        invariant forall c :: c in Cells() <==>
                    c in old(Cells()) && !(c.0 == x && minY <= c.1 < y && c.1 <= maxY && InDisc(c, k))
        decreases maxY - y
      {
        var dx, dy := x as real - k.cx, y as real - k.cy;
        var dig := dx * dx + dy * dy <= r2;
        assert dig <==> InDisc((x, y), k);
        if dig {
          SetSolid(x, y, false);
        }
        y := y + 1;
      }
    }

    /** removeCircle(): what is dug is the disc within the truncated box, and with a radius
        that is not negative that is the disc. */
    method RemoveCircle(k: Circle)
      requires Valid()
      modifies this`m_bits
      ensures Valid()
      ensures forall c :: c in Cells() <==> c in old(Cells()) && !(InBox(c, k) && InDisc(c, k))
      ensures k.r >= 0.0 ==> Cells() == Dug(old(Cells()), k)
    {
      var minX, maxX := Max(0, Truncate(k.cx - k.r)), Min(m_w - 1, Truncate(k.cx + k.r));
      var minY, maxY := Max(0, Truncate(k.cy - k.r)), Min(m_h - 1, Truncate(k.cy + k.r));
      var x := minX;
      while x <= maxX
        invariant minX <= x && Valid()
        invariant forall c :: c in Cells() <==>
                    c in old(Cells()) && !(minX <= c.0 < x && c.0 <= maxX && minY <= c.1 <= maxY && InDisc(c, k))
        decreases maxX - x
      {
        DigColumn(x, minY, maxY, k);
        x := x + 1;
      }
      forall c | c in old(Cells()) && k.r >= 0.0 && InDisc(c, k) ensures InBox(c, k) {
        BoxCoversDisc(c, k);
      }
    }

    /** columnHeight(): the top of the highest solid cell. */
    method ColumnHeight(x: int) returns (r: int)
      requires Valid()
      ensures r == Height(Cells(), x, m_h)
    {
      if x < 0 || x >= m_w {
        return 0;
      }
      var y := m_h - 1;
      while y >= 0
        invariant y < m_h || m_h <= 0
        invariant Height(Cells(), x, m_h) == Height(Cells(), x, y + 1)
        decreases y
      {
        var solid := IsSolid(x, y);
        if solid {
          return y + 1;
        }
        y := y - 1;
      }
      return 0;
    }
  }
}
