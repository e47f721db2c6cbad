/** The typed codecs of ByteArray: fixed-width integers in either byte order, base-128
    varints, zigzag, and length-prefixed strings.  A word of n bytes is a number below
    Words(n). */
module Codecs {
  import opened Bits
  import opened Blocks
  import opened ByteArrays
  import opened Wrappers

  datatype Endian = Little | Big

  function Words(n: nat): (m: nat)
    ensures m > 0
  {
    if n == 0 then 1 else 0x100 * Words(n - 1)
  }

  lemma {:induction false} WordsAreBits(n: nat)
    ensures Words(n) == PowerOfTwo(8 * n)
  {
    if n > 0 {
      WordsAreBits(n - 1);
      PowerSum(8, 8 * (n - 1));
      assert PowerOfTwo(4) == 16 && PowerOfTwo(8) == 0x100;
    }
  }

  lemma WordSizes()
    ensures Words(1) == 0x100 && Words(2) == 0x1_0000 && Words(4) == 0x1_0000_0000
    ensures Words(8) == 0x1_0000_0000_0000_0000
  {
    assert Words(0) == 1 && Words(3) == 0x100_0000 && Words(5) == 0x100_0000_0000;
    assert Words(6) == 0x1_0000_0000_0000 && Words(7) == 0x100_0000_0000_0000;
  }

  // ---------------------------------------------------------------- fixed width

  /** The memory image of the low n bytes of v on the little-endian host. */
  function Image(v: nat, n: nat): (r: seq<byte>)
    ensures |r| == n
  {
    if n == 0 then [] else [Byte(v % 0x100)] + Image(v / 0x100, n - 1)
  }

  function FromImage(b: seq<byte>): nat {
    if b == [] then 0 else b[0].code + 0x100 * FromImage(b[1..])
  }

  /** The low digit and the remainder of the rest make up the remainder. */
  lemma ModDigit(v: nat, m: nat)
    requires m > 0
    ensures v % 0x100 + 0x100 * (v / 0x100 % m) == v % (0x100 * m)
  {
    var q := v / 0x100;
    var low := v % 0x100 + 0x100 * (q % m);
    assert q == m * (q / m) + q % m;
    assert (0x100 * m) * (q / m) == 0x100 * (m * (q / m));
    ModUnique(v, 0x100 * m, q / m, low);
  }

  lemma {:induction false} ImageRoundTrip(v: nat, n: nat)
    ensures FromImage(Image(v, n)) == v % Words(n)
  {
    if n > 0 {
      ImageRoundTrip(v / 0x100, n - 1);
      assert Image(v, n)[1..] == Image(v / 0x100, n - 1);
      ModDigit(v, Words(n - 1));
    }
  }

  lemma {:induction false} ImageBound(b: seq<byte>)
    ensures FromImage(b) < Words(|b|)
  {
    if b != [] {
      ImageBound(b[1..]);
    }
  }

  /** byteswap() reverses the memory image. */
  function Reversed(b: seq<byte>): (r: seq<byte>)
    ensures |r| == |b|
  {
    seq(|b|, i requires 0 <= i < |b| => b[|b| - 1 - i])
  }

  lemma ReversedTwice(b: seq<byte>)
    ensures Reversed(Reversed(b)) == b
  {
  }

  function Store(v: nat, n: nat, e: Endian): (r: seq<byte>)
    ensures |r| == n
  {
    if e.Big? then Reversed(Image(v, n)) else Image(v, n)
  }

  function Load(b: seq<byte>, e: Endian): nat {
    FromImage(if e.Big? then Reversed(b) else b)
  }

  /** What is stored in n bytes is loaded modulo the word size, in either byte order. */
  lemma LoadStore(v: nat, n: nat, e: Endian)
    ensures Load(Store(v, n, e), e) == v % Words(n)
  {
    ReversedTwice(Image(v, n));
    ImageRoundTrip(v, n);
  }

  /** The number that bytes in network order stand for, most significant first. */
  function NetworkOrder(b: seq<byte>): nat {
    if b == [] then 0 else 0x100 * NetworkOrder(b[..|b| - 1]) + b[|b| - 1].code
  }

  /** Big endian is network order, and little endian the same bytes from the other end. */
  lemma {:induction false} EndianOrder(b: seq<byte>)
    ensures Load(b, Big) == NetworkOrder(b) && Load(Reversed(b), Little) == NetworkOrder(b)
  {
    if b != [] {
      var front := b[..|b| - 1];
      EndianOrder(front);
      assert Reversed(b)[1..] == Reversed(front) && Reversed(b)[0] == b[|b| - 1];
    }
  }

  lemma LoadBound(b: seq<byte>, e: Endian)
    ensures Load(b, e) < Words(|b|)
  {
    ImageBound(if e.Big? then Reversed(b) else b);
  }

  // ---------------------------------------------------------------- signed words and zigzag

  /** Conversion between an n-byte signed integer and its two's-complement word. */
  function Unsigned(x: int, m: nat): (u: nat)
    requires m > 0
    ensures u < m
  {
    x % m
  }

  function Signed(u: int, m: nat): int { if 2 * u < m then u else u - m }

  predicate InRange(x: int, m: nat) { 0 <= 2 * x + m && 2 * x < m }

  lemma SignedUnsigned(x: int, m: nat)
    requires m > 0 && InRange(x, m)
    ensures Signed(Unsigned(x, m), m) == x
  {
    if x >= 0 {
      ModSmall(x, m);
    } else {
      ModUnique(x, m, -1, x + m);
    }
  }

  /** EncodeZigzag32/64 with the conversions to unsigned written out. */
  function EncodeZigzag(x: int, m: nat): (u: nat)
    requires m > 0
    ensures u < m
  {
    if x < 0 then Unsigned(Unsigned(-x, m) * 2 - 1, m) else Unsigned(x * 2, m)
  }

  /** DecodeZigzag32/64: (v >> 1) ^ -(v & 1). */
  function DecodeZigzag(u: nat, n: nat): int {
    Signed(Bitwise(Xor, u / 2, Unsigned(0 - Bitwise(And, u, 1, 8 * n), Words(n)), 8 * n), Words(n))
  }

  /** The mask is zero or all ones, so the exclusive or keeps or complements. */
  lemma ZigzagBits(u: nat, n: nat)
    requires n > 0 && u < Words(n)
    ensures DecodeZigzag(u, n) == Signed(if u % 2 == 0 then u / 2 else Words(n) - 1 - u / 2, Words(n))
  {
    WordsAreBits(n);
    assert PowerOfTwo(1) == 2;
    AndMask(u, 1, 8 * n);
    if u % 2 == 0 {
      ModSmall(0, Words(n));
      WithZero(u / 2, 8 * n);
    } else {
      ModUnique(-1, Words(n), -1, Words(n) - 1);
      XorOnes(u / 2, 8 * n);
    }
  }

  /** Zigzag orders the signed values by magnitude, without wrapping around, and loses nothing
      on any of them, the minimum included. */
  lemma ZigzagRoundTrip(x: int, n: nat)
    requires n > 0 && InRange(x, Words(n))
    ensures EncodeZigzag(x, Words(n)) == if x >= 0 then 2 * x else -2 * x - 1
    ensures DecodeZigzag(EncodeZigzag(x, Words(n)), n) == x
  {
    var m := Words(n);
    assert m == 0x100 * Words(n - 1);
    if x < 0 {
      ModSmall(-x, m);
      ModSmall(-x * 2 - 1, m);
    } else {
      ModSmall(x * 2, m);
    }
    ZigzagBits(EncodeZigzag(x, m), n);
  }

  // ---------------------------------------------------------------- varint

  function Varint(v: nat): (r: seq<byte>)
    ensures |r| > 0
  {
    if v >= 0x80 then [Byte(v % 0x80 + 0x80)] + Varint(v / 0x80) else [Byte(v)]
  }

  function Groups(k: nat): (g: nat)
    ensures g > 0
  {
    if k == 0 then 1 else 0x80 * Groups(k - 1)
  }

  /** A value below 128^k takes at most k bytes. */
  lemma {:induction false} VarintLength(v: nat, k: nat)
    requires k > 0 && v < Groups(k)
    ensures |Varint(v)| <= k
  {
    if v >= 0x80 {
      assert Groups(k - 1) > v / 0x80;
      VarintLength(v / 0x80, k - 1);
    }
  }

  /** tmp[5] and tmp[10] hold every varint of a 32-bit and a 64-bit value. */
  function MaxGroups(n: nat): nat { if n == 4 then 5 else 10 }

  lemma VarintFitsBuffer(v: nat, n: nat)
    requires n == 4 || n == 8
    requires v < Words(n)
    ensures |Varint(v)| <= MaxGroups(n)
  {
    WordSizes();
    assert Groups(1) == 0x80 && Groups(2) == 0x4000 && Groups(3) == 0x20_0000 && Groups(4) == 0x1000_0000;
    assert Groups(5) == 0x8_0000_0000 && Groups(6) == 0x400_0000_0000 && Groups(7) == 0x2_0000_0000_0000;
    assert Groups(8) == 0x100_0000_0000_0000 && Groups(9) == 0x8000_0000_0000_0000;
    assert Groups(10) == 0x40_0000_0000_0000_0000;
    VarintLength(v, MaxGroups(n));
  }

  /** The outcome of a typed read on flat contents: the value and where the cursor is then,
      or what stopped it and where the cursor was left. */
  datatype Decoded<T> = Decoded(value: T, pos: nat) | Failed(error: ReadResult, pos: nat)

  /** A number read in two steps: acc, and what follows at a higher place. */
  function Plus(acc: nat, scale: nat, rest: Decoded<nat>): Decoded<nat> {
    match rest
    case Decoded(v, p) => Decoded(acc + scale * v, p)
    case Failed(error, p) => Failed(error, p)
  }

  /** readUint32()/readUint64(): at most `groups` bytes, low bits first. */
  function ReadGroups(data: seq<byte>, pos: nat, size: nat, groups: nat): (r: Decoded<nat>)
    requires pos <= size <= |data|
    ensures pos <= r.pos <= size
    decreases groups
  {
    if groups == 0 then Decoded(0, pos)
    else
      match ReadAt(data, pos, size, 1)
      case Bytes(b) =>
        if b[0].code < 0x80 then Decoded(b[0].code, pos + 1)
        else
          Plus(b[0].code - 0x80, 0x80, ReadGroups(data, pos + 1, size, groups - 1))
      case NotEnough => Failed(NotEnough, pos)
      case NullBlock => Failed(NullBlock, pos)
  }

  function ReadVarint(data: seq<byte>, pos: nat, size: nat, n: nat): (r: Decoded<nat>)
    requires pos <= size <= |data|
    ensures pos <= r.pos <= size
  {
    Cut(ReadGroups(data, pos, size, MaxGroups(n)), Words(n))
  }

  /** The word that is left of a number. */
  function Cut(d: Decoded<nat>, m: nat): Decoded<nat>
    requires m > 0
  {
    if d.Decoded? then Decoded(d.value % m, d.pos) else d
  }

  /** A varint is read back wherever it lies. */
  lemma {:induction false} GroupsRoundTrip(v: nat, groups: nat, data: seq<byte>, pos: nat, size: nat)
    requires |Varint(v)| <= groups && pos + |Varint(v)| <= size <= |data|
    requires data[pos..pos + |Varint(v)|] == Varint(v)
    ensures ReadGroups(data, pos, size, groups) == Decoded(v, pos + |Varint(v)|)
  {
    var enc := Varint(v);
    assert ReadAt(data, pos, size, 1) == Bytes(data[pos..pos + 1]);
    assert data[pos..pos + 1][0] == data[pos] == data[pos..pos + |enc|][0] == enc[0];
    if v >= 0x80 {
      var rest := Varint(v / 0x80);
      assert data[pos + 1..pos + |enc|] == data[pos..pos + |enc|][1..] == rest;
      assert pos + |enc| == pos + 1 + |rest|;
      GroupsRoundTrip(v / 0x80, groups - 1, data, pos + 1, size);
    }
  }

  lemma VarintRoundTrip(v: nat, n: nat, data: seq<byte>, pos: nat, size: nat)
    requires n == 4 || n == 8
    requires v < Words(n) && pos + |Varint(v)| <= size <= |data|
    requires data[pos..pos + |Varint(v)|] == Varint(v)
    ensures ReadVarint(data, pos, size, n) == Decoded(v, pos + |Varint(v)|)
  {
    VarintFitsBuffer(v, n);
    GroupsRoundTrip(v, MaxGroups(n), data, pos, size);
    ModSmall(v, Words(n));
  }

  // ---------------------------------------------------------------- typed values

  /** The writer/reader pairs: writeFint8..64, writeFuint8..64 (and the floats, by their bit
      patterns), writeInt32/64, writeUint32/64, writeStringF16/32/64 and writeStringVint. */
  datatype Kind = Fint(n: nat) | Fuint(n: nat) | Vint(n: nat) | Vuint(n: nat) | StringF(n: nat) | StringVint

  datatype Value = Number(x: int) | Text(s: seq<byte>)

  datatype Item = Item(kind: Kind, value: Value)

  /** The widths that there are readers and writers for. */
  predicate ValidKind(k: Kind) {
    match k
    case Fint(n) => n in {1, 2, 4, 8}
    case Fuint(n) => n in {1, 2, 4, 8}
    case Vint(n) => n in {4, 8}
    case Vuint(n) => n in {4, 8}
    case StringF(n) => n in {2, 4, 8}
    case StringVint => true
  }

  /** A value that the writer of its kind takes. */
  predicate Typed(it: Item) {
    && ValidKind(it.kind)
    && match it.kind
       case Fint(n) => it.value.Number? && InRange(it.value.x, Words(n))
       case Fuint(n) => it.value.Number? && 0 <= it.value.x < Words(n)
       case Vint(n) => it.value.Number? && InRange(it.value.x, Words(n))
       case Vuint(n) => it.value.Number? && 0 <= it.value.x < Words(n)
       case StringF(_) => it.value.Text?
       case StringVint => it.value.Text?
  }

  /** The string's size is not truncated by its length field. */
  predicate Fits(it: Item) {
    match it.kind
    case StringF(n) => it.value.Text? && |it.value.s| < Words(n)
    case StringVint => it.value.Text? && |it.value.s| < Words(8)
    case _ => true
  }

  /** The bytes before the characters of a string, or the whole number. */
  function Header(it: Item, e: Endian): seq<byte>
    requires Typed(it)
  {
    match it.kind
    case Fint(n) => Store(Unsigned(it.value.x, Words(n)), n, e)
    case Fuint(n) => Store(it.value.x, n, e)
    case Vint(n) => Varint(EncodeZigzag(it.value.x, Words(n)))
    case Vuint(n) => Varint(it.value.x)
    case StringF(n) => Store(|it.value.s|, n, e)
    case StringVint => Varint(|it.value.s| % Words(8))
  }

  function Characters(it: Item): seq<byte> {
    if it.value.Text? then it.value.s else []
  }

  function Encode(it: Item, e: Endian): seq<byte>
    requires Typed(it)
  {
    Header(it, e) + Characters(it)
  }

  function ReadFixed(data: seq<byte>, pos: nat, size: nat, n: nat, e: Endian): (r: Decoded<nat>)
    requires pos <= size <= |data|
    ensures pos <= r.pos <= size
  {
    match ReadAt(data, pos, size, n)
    case Bytes(b) => Decoded(Load(b, e), pos + n)
    case NotEnough => Failed(NotEnough, pos)
    case NullBlock => Failed(NullBlock, pos)
  }

  /** The number a read starts with: the value itself, or the length of a string. */
  function ReadWord(kind: Kind, data: seq<byte>, pos: nat, size: nat, e: Endian): (r: Decoded<nat>)
    requires pos <= size <= |data|
    ensures pos <= r.pos <= size
  {
    match kind
    case Fint(n) => ReadFixed(data, pos, size, n, e)
    case Fuint(n) => ReadFixed(data, pos, size, n, e)
    case Vint(n) => ReadVarint(data, pos, size, n)
    case Vuint(n) => ReadVarint(data, pos, size, n)
    case StringF(n) => ReadFixed(data, pos, size, n, e)
    case StringVint => ReadVarint(data, pos, size, 8)
  }

  function ReadText(data: seq<byte>, pos: nat, size: nat, len: nat): (r: Decoded<Value>)
    requires pos <= size <= |data|
    ensures pos <= r.pos <= size
  {
    match ReadAt(data, pos, size, len)
    case Bytes(b) => Decoded(Text(b), pos + len)
    case NotEnough => Failed(NotEnough, pos)
    case NullBlock => Failed(NullBlock, pos)
  }

  /** The number that a word read for this kind stands for. */
  function FromWord(kind: Kind, u: nat): int {
    match kind
    case Fint(n) => Signed(u, Words(n))
    case Vint(n) => DecodeZigzag(u, n)
    case _ => u
  }

  /** The matching read. */
  function Decode(kind: Kind, data: seq<byte>, pos: nat, size: nat, e: Endian): (r: Decoded<Value>)
    requires pos <= size <= |data|
    ensures pos <= r.pos <= size
  {
    match ReadWord(kind, data, pos, size, e)
    case Failed(error, p) => Failed(error, p)
    case Decoded(u, p) =>
      if kind.StringF? || kind.StringVint? then ReadText(data, p, size, u)
      else Decoded(Number(FromWord(kind, u)), p)
  }

  /** What the header of an item decodes to. */
  function HeaderWord(it: Item): (u: nat)
    requires Typed(it)
  {
    match it.kind
    case Fint(n) => Unsigned(it.value.x, Words(n))
    case Fuint(_) => it.value.x
    case Vint(n) => EncodeZigzag(it.value.x, Words(n))
    case Vuint(_) => it.value.x
    case StringF(n) => |it.value.s| % Words(n)
    case StringVint => |it.value.s| % Words(8)
  }

  lemma FixedAt(v: nat, n: nat, e: Endian, data: seq<byte>, pos: nat, size: nat)
    requires n > 0 && pos + n <= size <= |data| && data[pos..pos + n] == Store(v, n, e)
    ensures ReadFixed(data, pos, size, n, e) == Decoded(v % Words(n), pos + n)
  {
    LoadStore(v, n, e);
    assert ReadAt(data, pos, size, n) == Bytes(data[pos..pos + n]);
  }

  lemma WordRoundTrip(it: Item, e: Endian, data: seq<byte>, pos: nat, size: nat)
    requires Typed(it) && pos + |Header(it, e)| <= size <= |data|
    requires data[pos..pos + |Header(it, e)|] == Header(it, e)
    ensures ReadWord(it.kind, data, pos, size, e) == Decoded(HeaderWord(it), pos + |Header(it, e)|)
  {
    match it.kind
    case Fint(n) =>
      var u := Unsigned(it.value.x, Words(n));
      FixedAt(u, n, e, data, pos, size);
      ModSmall(u, Words(n));
    case Fuint(n) =>
      FixedAt(it.value.x, n, e, data, pos, size);
      ModSmall(it.value.x, Words(n));
    case Vint(n) => VarintRoundTrip(EncodeZigzag(it.value.x, Words(n)), n, data, pos, size);
    case Vuint(n) => VarintRoundTrip(it.value.x, n, data, pos, size);
    case StringF(n) => FixedAt(|it.value.s|, n, e, data, pos, size);
    case StringVint => VarintRoundTrip(|it.value.s| % Words(8), 8, data, pos, size);
  }

  /** An empty string whose characters would start exactly at capacity. */
  predicate EmptyAtCapacity(it: Item, end: nat, capacity: nat) {
    it.value == Text([]) && end == capacity
  }

  lemma CutSlice(data: seq<byte>, pos: nat, mid: nat, end: nat, front: seq<byte>, back: seq<byte>)
    requires pos <= end <= |data| && data[pos..end] == front + back && mid == pos + |front|
    ensures mid <= end && data[pos..mid] == front && data[mid..end] == back && end == mid + |back|
  {
    assert |front + back| == end - pos;
    assert data[pos..mid] == data[pos..end][..|front|];
    assert data[mid..end] == data[pos..end][|front|..];
  }

  /** One written item, read back from where it was written. */
  lemma ItemRoundTrip(it: Item, e: Endian, data: seq<byte>, pos: nat, size: nat, end: nat)
    requires Typed(it) && end == pos + |Encode(it, e)| && end <= size <= |data|
    requires data[pos..end] == Encode(it, e)
    ensures ReadsAs(it, Decode(it.kind, data, pos, size, e), end, |data|)
  {
    var mid := pos + |Header(it, e)|;
    CutSlice(data, pos, mid, end, Header(it, e), Characters(it));
    WordRoundTrip(it, e, data, pos, size);
    if it.value.Text? {
      StringRoundTrip(it, HeaderWord(it), data, mid, size, end);
    } else {
      NumberReadsAs(it, e, data, pos, size, end);
    }
  }

  lemma NumberReadsAs(it: Item, e: Endian, data: seq<byte>, pos: nat, size: nat, end: nat)
    requires Typed(it) && it.value.Number? && pos <= size <= |data|
    requires ReadWord(it.kind, data, pos, size, e) == Decoded(HeaderWord(it), end)
    ensures ReadsAs(it, Decode(it.kind, data, pos, size, e), end, |data|)
  {
    NumberRoundTrip(it);
  }

  /** The outcome of reading back one item that was written up to `end`. */
  predicate ReadsAs(it: Item, d: Decoded<Value>, end: nat, capacity: nat) {
    if !Fits(it) then d.Decoded? ==> d.value != it.value
    else d == if EmptyAtCapacity(it, end, capacity) then Failed(NullBlock, capacity) else Decoded(it.value, end)
  }

  lemma NumberRoundTrip(it: Item)
    requires Typed(it) && it.value.Number?
    ensures match it.kind
            case Fint(n) => Signed(HeaderWord(it), Words(n)) == it.value.x
            case Vint(n) => DecodeZigzag(HeaderWord(it), n) == it.value.x
            case _ => HeaderWord(it) == it.value.x
  {
    match it.kind
    case Fint(n) => SignedUnsigned(it.value.x, Words(n));
    case Fuint(_) =>
    case Vint(n) => ZigzagRoundTrip(it.value.x, n);
    case Vuint(_) =>
  }

  lemma StringRoundTrip(it: Item, u: nat, data: seq<byte>, mid: nat, size: nat, end: nat)
    requires Typed(it) && it.value.Text? && u == HeaderWord(it)
    requires end == mid + |it.value.s| && end <= size <= |data| && data[mid..end] == it.value.s
    ensures ReadsAs(it, ReadText(data, mid, size, u), end, |data|)
  {
    var s := it.value.s;
    if it.kind.StringF? {
      if |s| < Words(it.kind.n) { ModSmall(|s|, Words(it.kind.n)); }
    } else {
      if |s| < Words(8) { ModSmall(|s|, Words(8)); }
    }
    if Fits(it) {
      assert u == |s|;
    } else {
      assert u < |s|;
    }
  }

  // ---------------------------------------------------------------- sequences of values

  function EncodeAll(items: seq<Item>, e: Endian): seq<byte>
    requires forall i :: 0 <= i < |items| ==> Typed(items[i])
  {
    if items == [] then [] else Encode(items[0], e) + EncodeAll(items[1..], e)
  }

  function Kinds(items: seq<Item>): (r: seq<Kind>)
    ensures |r| == |items|
  {
    seq(|items|, i requires 0 <= i < |items| => items[i].kind)
  }

  function Values(items: seq<Item>): (r: seq<Value>)
    ensures |r| == |items|
  {
    seq(|items|, i requires 0 <= i < |items| => items[i].value)
  }

  /** The matching reads, one after the other, until one fails. */
  function DecodeAll(kinds: seq<Kind>, data: seq<byte>, pos: nat, size: nat, e: Endian): (r: Decoded<seq<Value>>)
    requires pos <= size <= |data|
    ensures pos <= r.pos <= size
    decreases |kinds|
  {
    if kinds == [] then Decoded([], pos)
    else
      match Decode(kinds[0], data, pos, size, e)
      case Failed(error, p) => Failed(error, p)
      case Decoded(v, p) =>
        match DecodeAll(kinds[1..], data, p, size, e)
        case Failed(error, q) => Failed(error, q)
        case Decoded(vs, q) => Decoded([v] + vs, q)
  }

  /** Every string fits its length field, and the data does not end with an empty string
      that fills the last block to the brim. */
  predicate ReadsBack(items: seq<Item>, end: nat, capacity: nat) {
    && (forall i :: 0 <= i < |items| ==> Fits(items[i]))
    && (items != [] ==> !EmptyAtCapacity(items[|items| - 1], end, capacity))
  }

  lemma EncodeNonEmpty(it: Item, e: Endian)
    requires Typed(it)
    ensures |Encode(it, e)| > 0
  {
  }

  lemma DecodeAllCons(kinds: seq<Kind>, data: seq<byte>, pos: nat, size: nat, e: Endian,
                      v: Value, vs: seq<Value>, end: nat)
    requires pos <= size <= |data| && kinds != []
    ensures DecodeAll(kinds, data, pos, size, e) == Decoded([v] + vs, end) <==>
              var d := Decode(kinds[0], data, pos, size, e);
              d.Decoded? && d.value == v && DecodeAll(kinds[1..], data, d.pos, size, e) == Decoded(vs, end)
  {
    var d := Decode(kinds[0], data, pos, size, e);
    if d.Decoded? {
      var r := DecodeAll(kinds[1..], data, d.pos, size, e);
      if r.Decoded? {
        assert ([d.value] + r.value)[0] == d.value && ([d.value] + r.value)[1..] == r.value;
        assert ([v] + vs)[0] == v && ([v] + vs)[1..] == vs;
      }
    }
  }

  /** Where the first item ends, and what lies before and after that point. */
  lemma SplitFirst(items: seq<Item>, e: Endian, data: seq<byte>, pos: nat, end: nat) returns (mid: nat)
    requires items != [] && forall i :: 0 <= i < |items| ==> Typed(items[i])
    requires end == pos + |EncodeAll(items, e)| && end <= |data| && data[pos..end] == EncodeAll(items, e)
    ensures mid == pos + |Encode(items[0], e)| && end == mid + |EncodeAll(items[1..], e)|
    ensures if |items| > 1 then mid < end else mid == end
    ensures data[pos..mid] == Encode(items[0], e) && data[mid..end] == EncodeAll(items[1..], e)
  {
    var first, rest := Encode(items[0], e), EncodeAll(items[1..], e);
    mid := pos + |first|;
    CutSlice(data, pos, mid, end, first, rest);
    if |items| > 1 {
      EncodeNonEmpty(items[1], e);
      assert items[1..][0] == items[1];
    }
  }

  lemma RoundTripStep(items: seq<Item>, e: Endian, data: seq<byte>, size: nat, pos: nat, mid: nat, end: nat)
    requires items != [] && pos <= mid <= end <= size <= |data| && (if |items| > 1 then mid < end else mid == end)
    requires ReadsAs(items[0], Decode(items[0].kind, data, pos, size, e), mid, |data|)
    requires DecodeAll(Kinds(items[1..]), data, mid, size, e) == Decoded(Values(items[1..]), end)
             <==> ReadsBack(items[1..], end, |data|)
    ensures DecodeAll(Kinds(items), data, pos, size, e) == Decoded(Values(items), end)
            <==> ReadsBack(items, end, |data|)
  {
    RestOf(items, end, |data|);
    DecodeAllCons(Kinds(items), data, pos, size, e, items[0].value, Values(items[1..]), end);
    var d := Decode(items[0].kind, data, pos, size, e);
    if Fits(items[0]) && |items| == 1 {
      assert Kinds(items[1..]) == [] && Values(items[1..]) == [];
    }
  }

  /** Typed round trip: written values come back, all of them and with the cursor at the end,
      exactly when ReadsBack holds. */
  lemma {:induction false} TypedRoundTrip(items: seq<Item>, e: Endian, data: seq<byte>, pos: nat, size: nat, end: nat)
    requires forall i :: 0 <= i < |items| ==> Typed(items[i])
    requires end == pos + |EncodeAll(items, e)| && end <= size <= |data| && data[pos..end] == EncodeAll(items, e)
    ensures DecodeAll(Kinds(items), data, pos, size, e) == Decoded(Values(items), end)
            <==> ReadsBack(items, end, |data|)
    decreases |items|
  {
    if items == [] {
      assert Kinds(items) == [] && Values(items) == [];
    } else {
      var mid := SplitFirst(items, e, data, pos, end);
      ItemRoundTrip(items[0], e, data, pos, size, mid);
      TypedRoundTrip(items[1..], e, data, mid, size, end);
      RoundTripStep(items, e, data, size, pos, mid, end);
    }
  }

  lemma RestOf(items: seq<Item>, end: nat, capacity: nat)
    requires items != []
    ensures Kinds(items)[0] == items[0].kind && Kinds(items)[1..] == Kinds(items[1..])
    ensures Values(items) == [items[0].value] + Values(items[1..])
    ensures |items| > 1 ==>
              (ReadsBack(items, end, capacity) <==> Fits(items[0]) && ReadsBack(items[1..], end, capacity))
  {
    assert forall i :: 0 < i < |items| ==> items[1..][i - 1] == items[i];
    if |items| > 1 && Fits(items[0]) && ReadsBack(items[1..], end, capacity) {
      forall i | 0 <= i < |items| ensures Fits(items[i]) {
        if i > 0 { assert Fits(items[1..][i - 1]); }
      }
    }
  }

  // ---------------------------------------------------------------- the codecs on a ByteArray

  /** (value & 0x7F) | 0x80: the low seven bits, marked. */
  lemma MoreToCome(value: nat, k: nat)
    requires k >= 7
    ensures Bitwise(Or, Bitwise(And, value, 0x7F, k), 0x80, 8) == value % 0x80 + 0x80
  {
    assert PowerOfTwo(4) == 16 && PowerOfTwo(7) == 0x80 && PowerOfTwo(8) == 0x100;
    AndMask(value, 7, k);
    OrAdds(value % 0x80, 1, 7, 8);
  }

  function Marked(value: nat, k: nat): (b: byte)
    requires k >= 7
    ensures b == Byte(value % 0x80 + 0x80)
  {
    MoreToCome(value, k);
    Byte(Bitwise(Or, Bitwise(And, value, 0x7F, k), 0x80, 8))
  }

  /** The loop of writeUint32()/writeUint64(); its buffer has 5 or 10 bytes. */
  method VarintBytes(v: nat, n: nat) returns (r: seq<byte>)
    requires n == 4 || n == 8
    requires v < Words(n)
    ensures r == Varint(v)
  {
    VarintFitsBuffer(v, n);
    var tmp := new byte[MaxGroups(n)];
    var value, i := v, 0;
    while value >= 0x80
      invariant 0 <= i && i + |Varint(value)| <= tmp.Length
      invariant tmp[..i] + Varint(value) == Varint(v)
    {
      ghost var done, rest := tmp[..i], Varint(value / 0x80);
      tmp[i] := Marked(value, 8 * n);
      assert tmp[..i + 1] == done + [tmp[i]];
      assert done + ([tmp[i]] + rest) == tmp[..i + 1] + rest;
      i, value := i + 1, value / 0x80;
    }
    tmp[i] := Byte(value);
    return tmp[..i + 1];
  }

  method WordBytes(it: Item, e: Endian) returns (r: seq<byte>)
    requires Typed(it)
    ensures r == Header(it, e)
  {
    match it.kind
    case Fint(n) => r := Store(Unsigned(it.value.x, Words(n)), n, e);
    case Fuint(n) => r := Store(it.value.x, n, e);
    case Vint(n) => r := VarintBytes(EncodeZigzag(it.value.x, Words(n)), n);
    case Vuint(n) => r := VarintBytes(it.value.x, n);
    case StringF(n) => r := Store(|it.value.s|, n, e);
    case StringVint => r := VarintBytes(|it.value.s| % Words(8), 8);
  }

  /** Any of the typed writes: the number or the length first, then the characters.  `done`
      has been written from `at` on before. */
  method WriteItem(ba: ByteArray, it: Item, e: Endian, ghost before: seq<byte>, ghost at: nat, ghost done: seq<byte>)
    requires ba.Valid() && Typed(it)
    requires ba.m_position == at + |done| && Overwritten(before, at, done, ba.Data())
    modifies ba, ba.nodes, ba.Arrays()
    ensures ba.Valid() && ba.m_position == at + |done + Encode(it, e)|
    ensures ba.m_size == Max(old(ba.m_size), ba.m_position)
    ensures Overwritten(before, at, done + Encode(it, e), ba.Data())
    ensures old(ba.nodes) <= ba.nodes
    ensures forall i :: |old(ba.nodes)| <= i < |ba.nodes| ==> fresh(ba.nodes[i]) && fresh(ba.nodes[i].ptr)
  {
    var word := WordBytes(it, e);
    assert done + word + Characters(it) == done + Encode(it, e);
    WriteParts(ba, word, it.value, before, at, done);
  }

  method WriteParts(ba: ByteArray, word: seq<byte>, value: Value, ghost before: seq<byte>, ghost at: nat,
                    ghost done: seq<byte>)
    requires ba.Valid() && ba.m_position == at + |done| && Overwritten(before, at, done, ba.Data())
    modifies ba, ba.nodes, ba.Arrays()
    ensures ba.Valid() && ba.m_size == Max(old(ba.m_size), ba.m_position)
    ensures var all := done + word + (if value.Text? then value.s else []);
            ba.m_position == at + |all| && Overwritten(before, at, all, ba.Data())
    ensures old(ba.nodes) <= ba.nodes
    ensures forall i :: |old(ba.nodes)| <= i < |ba.nodes| ==> fresh(ba.nodes[i]) && fresh(ba.nodes[i].ptr)
  {
    ba.AppendMore(word, before, at, done);
    assert done + word + [] == done + word;
    if value.Text? {
      ba.AppendMore(value.s, before, at, done + word);
    }
  }

  method WriteAll(ba: ByteArray, items: seq<Item>, e: Endian)
    requires ba.Valid() && forall i :: 0 <= i < |items| ==> Typed(items[i])
    modifies ba, ba.nodes, ba.Arrays()
    ensures ba.Valid() && ba.m_position == old(ba.m_position) + |EncodeAll(items, e)|
    ensures ba.m_size == Max(old(ba.m_size), ba.m_position)
    ensures Overwritten(old(ba.Data()), old(ba.m_position), EncodeAll(items, e), ba.Data())
  {
    ghost var before, at := ba.Data(), ba.m_position;
    ba.DataLength();
    NothingOverwritten(before, at);
    WriteOn(ba, items, e, before, at);
  }

  method WriteOn(ba: ByteArray, items: seq<Item>, e: Endian, ghost before: seq<byte>, ghost at: nat)
    requires ba.Valid() && forall i :: 0 <= i < |items| ==> Typed(items[i])
    requires ba.m_position == at && Overwritten(before, at, [], ba.Data())
    modifies ba, ba.nodes, ba.Arrays()
    ensures ba.Valid() && ba.m_position == at + |EncodeAll(items, e)|
    ensures ba.m_size == Max(old(ba.m_size), ba.m_position)
    ensures Overwritten(before, at, EncodeAll(items, e), ba.Data())
  {
    ghost var done, all := [], EncodeAll(items, e);
    assert items[0..] == items && done + all == all;
    for k := 0 to |items|
      invariant ba.Valid() && StillToCome(items, k, e, done, all)
      invariant ba.m_position == at + |done| && ba.m_size == Max(old(ba.m_size), ba.m_position)
      invariant Overwritten(before, at, done, ba.Data())
      invariant old(ba.nodes) <= ba.nodes
      invariant forall i :: |old(ba.nodes)| <= i < |ba.nodes| ==> fresh(ba.nodes[i]) && fresh(ba.nodes[i].ptr)
    {
      WriteItem(ba, items[k], e, before, at, done);
      done := EncodeNext(items, k, e, done, all);
    }
    EncodeDone(items, e, done, all);
  }

  /** The items from k on are what is missing of all. */
  ghost predicate StillToCome(items: seq<Item>, k: nat, e: Endian, done: seq<byte>, all: seq<byte>)
    requires k <= |items| && forall i :: 0 <= i < |items| ==> Typed(items[i])
  {
    done + EncodeAll(items[k..], e) == all
  }

  lemma EncodeDone(items: seq<Item>, e: Endian, done: seq<byte>, all: seq<byte>)
    requires (forall i :: 0 <= i < |items| ==> Typed(items[i])) && StillToCome(items, |items|, e, done, all)
    ensures done == all
  {
    assert items[|items|..] == [];
  }

  lemma EncodeNext(items: seq<Item>, k: nat, e: Endian, done: seq<byte>, all: seq<byte>) returns (next: seq<byte>)
    requires k < |items| && (forall i :: 0 <= i < |items| ==> Typed(items[i])) && StillToCome(items, k, e, done, all)
    ensures next == done + Encode(items[k], e) && StillToCome(items, k + 1, e, next, all)
  {
    next := done + Encode(items[k], e);
    assert items[k..][0] == items[k] && items[k..][1..] == items[k + 1..];
    Reassociate(done, Encode(items[k], e), EncodeAll(items[k + 1..], e));
  }

  /** result |= group << i, in a word of k bits. */
  function AddGroup(result: nat, group: nat, i: nat, k: nat): nat {
    Bitwise(Or, result, group * PowerOfTwo(i) % PowerOfTwo(k), k)
  }

  /** Shifted groups share no bit with what is below them, so or-ing adds, and the word keeps
      what fits. */
  lemma GroupAdds(acc: nat, group: nat, i: nat, k: nat)
    requires i <= k && acc < PowerOfTwo(i)
    ensures AddGroup(acc, group, i, k) == (acc + group * PowerOfTwo(i)) % PowerOfTwo(k)
  {
    var p, q := PowerOfTwo(i), PowerOfTwo(k - i);
    PowerSum(i, k - i);
    ScaledRemainder(0, group, p, q, PowerOfTwo(k));
    ScaledRemainder(acc, group, p, q, PowerOfTwo(k));
    ShiftedOrAdds(acc, group, i, k, group % q);
  }

  lemma ShiftedOrAdds(acc: nat, group: nat, i: nat, k: nat, kept: nat)
    requires i <= k && acc < PowerOfTwo(i) && kept * PowerOfTwo(i) < PowerOfTwo(k)
    requires group * PowerOfTwo(i) % PowerOfTwo(k) == kept * PowerOfTwo(i)
    ensures AddGroup(acc, group, i, k) == acc + kept * PowerOfTwo(i)
  {
    OrAdds(acc, kept, i, k);
  }

  lemma ScaledRemainder(acc: nat, group: nat, p: nat, q: nat, word: nat)
    requires acc < p && q > 0 && word == p * q && word > 0
    ensures (acc + group * p) % word == acc + group % q * p && group % q * p < word
  {
    var low, high := group % q, group / q;
    assert (q * high + low) * p == p * q * high + low * p;
    ScaledBound(low, p, q, acc);
    ModUnique(acc + group * p, p * q, high, acc + low * p);
  }

  lemma ScaledBound(low: nat, p: nat, q: nat, acc: nat)
    requires low < q && acc < p
    ensures acc + low * p < p * q && low * p < p * q
  {
    MulOrder(low + 1, q, p);
    assert (low + 1) * p == low * p + p;
  }

  /** One byte of the loop, for the word that is kept and for the sum it stands for. */
  lemma NextGroup(data: seq<byte>, pos: nat, size: nat, groups: nat, acc: nat, i: nat, b: byte, k: nat)
    returns (next: nat)
    requires pos <= size <= |data| && groups > 0 && ReadAt(data, pos, size, 1) == Bytes([b])
    requires i <= k && acc < PowerOfTwo(i)
    ensures AddGroup(acc, b.code % 0x80, i, k) == next % PowerOfTwo(k) && next < PowerOfTwo(i + 7)
    ensures Plus(acc, PowerOfTwo(i), ReadGroups(data, pos, size, groups)) ==
            if b.code < 0x80 then Decoded(next, pos + 1)
            else Plus(next, PowerOfTwo(i + 7), ReadGroups(data, pos + 1, size, groups - 1))
  {
    var group, p := b.code % 0x80, PowerOfTwo(i);
    next := acc + p * group;
    assert PowerOfTwo(4) == 16 && PowerOfTwo(7) == 0x80;
    PowerSum(i, 7);
    GroupAdds(acc, group, i, k);
    ScaledBound(group, p, 0x80, acc);
    FirstGroup(data, pos, size, groups, b);
    if b.code >= 0x80 {
      PlusTwice(acc, p, group, ReadGroups(data, pos + 1, size, groups - 1));
    }
  }

  lemma FirstGroup(data: seq<byte>, pos: nat, size: nat, groups: nat, b: byte)
    requires pos <= size <= |data| && groups > 0 && ReadAt(data, pos, size, 1) == Bytes([b])
    ensures ReadGroups(data, pos, size, groups) ==
            if b.code < 0x80 then Decoded(b.code % 0x80, pos + 1)
            else Plus(b.code % 0x80, 0x80, ReadGroups(data, pos + 1, size, groups - 1))
  {
    assert [b][0] == b;
  }

  lemma PlusTwice(acc: nat, scale: nat, low: nat, rest: Decoded<nat>)
    ensures Plus(acc, scale, Plus(low, 0x80, rest)) == Plus(acc + scale * low, scale * 0x80, rest)
  {
    if rest.Decoded? {
      var v := rest.value;
      assert scale * (low + 0x80 * v) == scale * low + scale * 0x80 * v;
    }
  }

  /** A varint is being read: `sum` is what the groups before shift i come to, result the word
      that is kept of it, and `goal` what the whole number comes to. */
  ghost predicate Reading(data: seq<byte>, pos: nat, size: nat, i: nat, left: nat, result: nat, sum: nat,
                          k: nat, goal: Decoded<nat>) {
    && pos <= size <= |data| && result == sum % PowerOfTwo(k) && sum < PowerOfTwo(i)
    && Plus(sum, PowerOfTwo(i), ReadGroups(data, pos, size, left)) == goal
  }

  lemma ReadingStarts(data: seq<byte>, pos: nat, size: nat, groups: nat, k: nat)
    requires pos <= size <= |data|
    ensures Reading(data, pos, size, 0, groups, 0, 0, k, ReadGroups(data, pos, size, groups))
  {
    ModSmall(0, PowerOfTwo(k));
    assert PowerOfTwo(0) == 1;
  }

  lemma ReadingDone(data: seq<byte>, pos: nat, size: nat, i: nat, result: nat, sum: nat, k: nat, goal: Decoded<nat>)
    requires Reading(data, pos, size, i, 0, result, sum, k, goal)
    ensures Cut(goal, PowerOfTwo(k)) == Decoded(result, pos)
  {
  }

  /** The loop on a ByteArray with unchanged contents. */
  ghost predicate Midway(ba: ByteArray, data: seq<byte>, i: nat, left: nat, result: nat, sum: nat, k: nat,
                         goal: Decoded<nat>)
    reads ba, ba.nodes, ba.Arrays()
  {
    && ba.Valid() && ba.Data() == data && |data| == ba.m_capacity
    && Reading(data, ba.m_position, ba.m_size, i, left, result, sum, k, goal)
  }

  /** One iteration of the loop of readUint32()/readUint64(): result |= (b & 0x7f) << i. */
  method ReadGroupAt(ba: ByteArray, k: nat, result: nat, i: nat,
                     ghost data: seq<byte>, ghost left: nat, ghost sum: nat, ghost goal: Decoded<nat>)
    returns (stop: bool, r: Decoded<nat>, next: nat, ghost total: nat)
    requires Midway(ba, data, i, left, result, sum, k, goal) && left > 0 && i <= k
    modifies ba`m_position, ba`m_cur, ba`blk
    ensures ba.Valid() && ba.Data() == data
    ensures stop ==> r == Cut(goal, PowerOfTwo(k)) && ba.m_position == r.pos
    ensures !stop ==> Midway(ba, data, i + 7, left - 1, next, total, k, goal)
  {
    ghost var p := ba.m_position;
    KeptWhole(sum, i, k);
    var one := ba.Read(1);
    next, total := result, sum;
    if !one.Bytes? {
      return true, Failed(one, ba.m_position), next, total;
    }
    var b := one.data[0];
    assert one.data == [b];
    total := NextGroup(data, p, ba.m_size, left, sum, i, b, k);
    next := AddGroup(result, b.code % 0x80, i, k);
    stop, r := b.code < 0x80, Decoded(next, ba.m_position);
  }

  /** readUint32()/readUint64(): i runs over the shifts, at most 5 or 10 of them. */
  method ReadVarintAt(ba: ByteArray, n: nat) returns (r: Decoded<nat>)
    requires ba.Valid() && (n == 4 || n == 8)
    modifies ba`m_position, ba`m_cur, ba`blk
    ensures ba.Valid() && ba.Data() == old(ba.Data()) && |ba.Data()| == ba.m_capacity
    ensures r == ReadVarint(ba.Data(), old(ba.m_position), ba.m_size, n) && ba.m_position == r.pos
  {
    ba.DataLength();
    WordsAreBits(n);
    ghost var data, groups := ba.Data(), MaxGroups(n);
    ghost var goal := ReadGroups(data, ba.m_position, ba.m_size, groups);
    ReadingStarts(data, ba.m_position, ba.m_size, groups, 8 * n);
    r := ReadShifts(ba, 8 * n, data, groups, goal);
  }

  /** The loop; only the last group can be cut off. */
  method ReadShifts(ba: ByteArray, bits: nat, ghost data: seq<byte>, ghost groups: nat, ghost goal: Decoded<nat>)
    returns (r: Decoded<nat>)
    requires Midway(ba, data, 0, groups, 0, 0, bits, goal) && 7 * groups - 7 < bits <= 7 * groups
    modifies ba`m_position, ba`m_cur, ba`blk
    ensures ba.Valid() && ba.Data() == data
    ensures r == Cut(goal, PowerOfTwo(bits)) && ba.m_position == r.pos
  {
    ghost var left: nat, sum: nat := groups, 0;
    var result: nat, i: nat := 0, 0;
    while i < bits
      invariant i + 7 * left == 7 * groups
      invariant Midway(ba, data, i, left, result, sum, bits, goal)
      decreases bits - i
    {
      var stop;
      stop, r, result, sum := ReadGroupAt(ba, bits, result, i, data, left, sum, goal);
      if stop {
        return;
      }
      i, left := i + 7, left - 1;
    }
    ReadingDone(data, ba.m_position, ba.m_size, i, result, sum, bits, goal);
    r := Decoded(result, ba.m_position);
  }

  /** Until the last shift nothing is cut off. */
  lemma KeptWhole(sum: nat, i: nat, k: nat)
    requires i <= k && sum < PowerOfTwo(i)
    ensures sum % PowerOfTwo(k) == sum
  {
    PowerSum(i, k - i);
    MulOrder(1, PowerOfTwo(k - i), PowerOfTwo(i));
    ModSmall(sum, PowerOfTwo(k));
  }

  method ReadFixedAt(ba: ByteArray, n: nat, e: Endian) returns (r: Decoded<nat>)
    requires ba.Valid()
    modifies ba`m_position, ba`m_cur, ba`blk
    ensures ba.Valid() && ba.Data() == old(ba.Data()) && |ba.Data()| == ba.m_capacity
    ensures r == ReadFixed(ba.Data(), old(ba.m_position), ba.m_size, n, e) && ba.m_position == r.pos
  {
    var b := ba.Read(n);
    r := if b.Bytes? then Decoded(Load(b.data, e), ba.m_position) else Failed(b, ba.m_position);
  }

  method ReadWordAt(ba: ByteArray, kind: Kind, e: Endian) returns (r: Decoded<nat>)
    requires ba.Valid() && ValidKind(kind)
    modifies ba`m_position, ba`m_cur, ba`blk
    ensures ba.Valid() && ba.Data() == old(ba.Data()) && |ba.Data()| == ba.m_capacity
    ensures r == ReadWord(kind, ba.Data(), old(ba.m_position), ba.m_size, e) && ba.m_position == r.pos
  {
    match kind
    case Fint(n) => r := ReadFixedAt(ba, n, e);
    case Fuint(n) => r := ReadFixedAt(ba, n, e);
    case Vint(n) => r := ReadVarintAt(ba, n);
    case Vuint(n) => r := ReadVarintAt(ba, n);
    case StringF(n) => r := ReadFixedAt(ba, n, e);
    case StringVint => r := ReadVarintAt(ba, 8);
  }

  method ReadTextAt(ba: ByteArray, len: nat) returns (r: Decoded<Value>)
    requires ba.Valid()
    modifies ba`m_position, ba`m_cur, ba`blk
    ensures ba.Valid() && ba.Data() == old(ba.Data()) && |ba.Data()| == ba.m_capacity
    ensures r == ReadText(ba.Data(), old(ba.m_position), ba.m_size, len) && ba.m_position == r.pos
  {
    var b := ba.Read(len);
    r := if b.Bytes? then Decoded(Text(b.data), ba.m_position) else Failed(b, ba.m_position);
  }

  /** Any of the typed reads. */
  method ReadItem(ba: ByteArray, kind: Kind, e: Endian) returns (r: Decoded<Value>)
    requires ba.Valid() && ValidKind(kind)
    modifies ba`m_position, ba`m_cur, ba`blk
    ensures ba.Valid() && ba.Data() == old(ba.Data()) && |ba.Data()| == ba.m_capacity
    ensures r == Decode(kind, ba.Data(), old(ba.m_position), ba.m_size, e) && ba.m_position == r.pos
  {
    var word := ReadWordAt(ba, kind, e);
    if word.Failed? {
      return Failed(word.error, word.pos);
    }
    if kind.StringF? || kind.StringVint? {
      r := ReadTextAt(ba, word.value);
    } else {
      r := Decoded(Number(FromWord(kind, word.value)), word.pos);
    }
  }

  method ReadAll(ba: ByteArray, kinds: seq<Kind>, e: Endian) returns (r: Decoded<seq<Value>>)
    requires ba.Valid() && forall i :: 0 <= i < |kinds| ==> ValidKind(kinds[i])
    modifies ba`m_position, ba`m_cur, ba`blk
    ensures ba.Valid() && ba.Data() == old(ba.Data()) && |ba.Data()| == ba.m_capacity
    ensures r == DecodeAll(kinds, ba.Data(), old(ba.m_position), ba.m_size, e) && ba.m_position == r.pos
    decreases |kinds|
  {
    if kinds == [] {
      ba.DataLength();
      return Decoded([], ba.m_position);
    }
    var v := ReadItem(ba, kinds[0], e);
    if v.Failed? {
      return Failed(v.error, v.pos);
    }
    var vs := ReadAll(ba, kinds[1..], e);
    r := if vs.Failed? then vs else Decoded([v.value] + vs.value, vs.pos);
  }

  method ReadBack(ba: ByteArray, items: seq<Item>, e: Endian, ghost end: nat) returns (r: Decoded<seq<Value>>)
    requires ba.Valid() && forall i :: 0 <= i < |items| ==> Typed(items[i])
    requires end == ba.m_position + |EncodeAll(items, e)| && end <= ba.m_size <= |ba.Data()|
    requires ba.Data()[ba.m_position..end] == EncodeAll(items, e)
    modifies ba`m_position, ba`m_cur, ba`blk
    ensures ba.Valid()
    ensures r == Decoded(Values(items), end) <==> ReadsBack(items, end, ba.m_capacity)
  {
    TypedRoundTrip(items, e, ba.Data(), ba.m_position, ba.m_size, end);
    r := ReadAll(ba, Kinds(items), e);
  }

  method WriteAndRewind(ba: ByteArray, items: seq<Item>, e: Endian) returns (ghost end: nat)
    requires ba.Valid() && forall i :: 0 <= i < |items| ==> Typed(items[i])
    modifies ba, ba.nodes, ba.Arrays()
    ensures ba.Valid() && ba.m_position == old(ba.m_position) && end == ba.m_position + |EncodeAll(items, e)|
    ensures end == old(ba.m_position) + |EncodeAll(items, e)|
    ensures end <= ba.m_size <= |ba.Data()| && ba.Data()[ba.m_position..end] == EncodeAll(items, e)
  {
    var start := ba.m_position;
    WriteAll(ba, items, e);
    end := ba.m_position;
    ba.DataLength();
    ghost var data := ba.Data();
    assert data[start..end] == EncodeAll(items, e);
    var ok := ba.SetPosition(start);
  }

  /** Write a sequence of values at the cursor, move back to where it started, and read them
      with the matching reads. */
  method WriteThenRead(ba: ByteArray, items: seq<Item>, e: Endian) returns (r: Decoded<seq<Value>>, ghost end: nat)
    requires ba.Valid() && forall i :: 0 <= i < |items| ==> Typed(items[i])
    modifies ba, ba.nodes, ba.Arrays()
    ensures ba.Valid() && end == old(ba.m_position) + |EncodeAll(items, e)|
    ensures r == Decoded(Values(items), end) <==> ReadsBack(items, end, ba.m_capacity)
  {
    end := WriteAndRewind(ba, items, e);
    r := ReadBack(ba, items, e, end);
  }
}
