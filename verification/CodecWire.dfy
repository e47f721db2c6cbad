/** The typed encodings byte by byte. */
module CodecWire {
  import opened Bits
  import opened Blocks
  import opened ByteArrays
  import opened Codecs

  // ---------------------------------------------------------------- fixed width

  lemma DivideTwice(v: nat, m: nat)
    requires m > 0
    ensures v / 0x100 / m == v / (0x100 * m)
  {
    var q, r := v / (0x100 * m), v % (0x100 * m);
    assert v == 0x100 * m * q + r;
    assert v / 0x100 == m * q + r / 0x100 by {
      assert v == 0x100 * (m * q) + r;
    }
    assert r / 0x100 < m;
    QuotientIs(v / 0x100, m, q, r / 0x100);
  }

  lemma QuotientIs(x: nat, m: nat, q: nat, r: nat)
    requires x == m * q + r && r < m
    ensures x / m == q
  {
    ModUnique(x, m, q, r);
    assert m * (x / m) == m * q;
  }

  /** Byte k of the little-endian image is digit k of the number in base 256. */
  lemma {:induction false} ImageDigit(v: nat, n: nat, k: nat)
    requires k < n
    ensures Image(v, n)[k].code == v / Words(k) % 0x100
  {
    if k > 0 {
      ImageDigit(v / 0x100, n - 1, k - 1);
      DivideTwice(v, Words(k - 1));
    }
  }

  /** In n bytes the number is least significant byte first in little-endian order, and most
      significant first in big-endian order. */
  lemma StoredDigit(v: nat, n: nat, e: Endian, k: nat)
    requires k < n
    ensures Store(v, n, e)[k].code == v / Words(if e.Big? then n - 1 - k else k) % 0x100
  {
    ImageDigit(v, n, if e.Big? then n - 1 - k else k);
  }

  /** The byte at place k of a fixed-width number. */
  ghost predicate InOrder(bytes: seq<byte>, v: nat, n: nat, e: Endian) {
    && |bytes| == n
    && forall k :: 0 <= k < n ==> bytes[k].code == v / Words(if e.Big? then n - 1 - k else k) % 0x100
  }

  lemma StoredInOrder(v: nat, n: nat, e: Endian)
    ensures InOrder(Store(v, n, e), v, n, e)
  {
    forall k | 0 <= k < n ensures Store(v, n, e)[k].code == v / Words(if e.Big? then n - 1 - k else k) % 0x100 {
      StoredDigit(v, n, e, k);
    }
  }

  // ---------------------------------------------------------------- varints

  /** Byte k of a varint holds digit k in base 128, with the top bit set on all but the last, and
      there is no byte too many. */
  lemma {:induction false} VarintDigit(v: nat, k: nat)
    requires k < |Varint(v)|
    ensures Varint(v)[k].code % 0x80 == v / Groups(k) % 0x80
    ensures Varint(v)[k].code >= 0x80 <==> k + 1 < |Varint(v)|
    ensures k + 1 == |Varint(v)| && k > 0 ==> Varint(v)[k].code > 0
  {
    if v >= 0x80 {
      assert Varint(v) == [Byte(v % 0x80 + 0x80)] + Varint(v / 0x80);
      if k > 0 {
        VarintDigit(v / 0x80, k - 1);
        DivideByGroups(v, Groups(k - 1));
        if k == 1 { assert Varint(v / 0x80)[0].code % 0x80 == v / 0x80 % 0x80; }
      }
    }
  }

  lemma DivideByGroups(v: nat, m: nat)
    requires m > 0
    ensures v / 0x80 / m == v / (0x80 * m)
  {
    var q, r := v / (0x80 * m), v % (0x80 * m);
    assert v == 0x80 * (m * q) + r;
    assert r / 0x80 < m;
    QuotientIs(v / 0x80, m, q, r / 0x80);
  }

  lemma {:induction false} GroupsStop(data: seq<byte>, pos: nat, size: nat, groups: nat)
    requires pos + groups <= size <= |data|
    requires forall i :: pos <= i < pos + groups ==> data[i].code >= 0x80
    ensures ReadGroups(data, pos, size, groups).Decoded? && ReadGroups(data, pos, size, groups).pos == pos + groups
    decreases groups
  {
    if groups > 0 {
      assert ReadAt(data, pos, size, 1) == Bytes([data[pos]]);
      GroupsStop(data, pos + 1, size, groups - 1);
    }
  }

  /** A read takes 5 bytes of a 32-bit number and 10 of a 64-bit one and no more, even when each of
      them says that another one follows. */
  lemma OverlongStops(data: seq<byte>, pos: nat, size: nat, n: nat)
    requires n == 4 || n == 8
    requires pos + (if n == 4 then 5 else 10) <= size <= |data|
    requires forall i :: pos <= i < pos + (if n == 4 then 5 else 10) ==> data[i].code >= 0x80
    ensures var d := ReadVarint(data, pos, size, n);
            d.Decoded? && d.pos == pos + if n == 4 then 5 else 10
  {
    GroupsStop(data, pos, size, if n == 4 then 5 else 10);
  }

  // ---------------------------------------------------------------- typed values

  /** How each kind of value lies in memory: fixed-width numbers and lengths in the byte order that
      is set, the others as varints, signed ones zigzag; characters follow their length. */
  lemma EncodedLayout(it: Item, e: Endian)
    requires Typed(it)
    ensures match it.kind
            case Fint(n) => InOrder(Encode(it, e), if it.value.x >= 0 then it.value.x else it.value.x + Words(n), n, e)
            case Fuint(n) => InOrder(Encode(it, e), it.value.x, n, e)
            case Vint(_) => Encode(it, e) == Varint(if it.value.x >= 0 then 2 * it.value.x else -2 * it.value.x - 1)
            case Vuint(_) => Encode(it, e) == Varint(it.value.x)
            case StringF(n) => |Encode(it, e)| >= n && InOrder(Encode(it, e)[..n], |it.value.s|, n, e)
                               && Encode(it, e)[n..] == it.value.s
            case StringVint => |it.value.s| < Words(8) ==> Encode(it, e) == Varint(|it.value.s|) + it.value.s
  {
    var head := Header(it, e);
    assert Encode(it, e) == head + Characters(it);
    assert it.value.Number? ==> head + [] == head;
    match it.kind
    case Fint(n) =>
      var u := Unsigned(it.value.x, Words(n));
      if it.value.x >= 0 {
        ModSmall(it.value.x, Words(n));
      } else {
        ModUnique(it.value.x, Words(n), -1, it.value.x + Words(n));
      }
      StoredInOrder(u, n, e);
    case Fuint(n) => StoredInOrder(it.value.x, n, e);
    case Vint(n) => ZigzagRoundTrip(it.value.x, n);
    case Vuint(_) =>
    case StringF(n) => StoredInOrder(|it.value.s|, n, e);
    case StringVint => if |it.value.s| < Words(8) { ModSmall(|it.value.s|, Words(8)); }
  }
}
