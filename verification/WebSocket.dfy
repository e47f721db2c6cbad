/** WebSocket frames, RFC 6455 sections 5.2 to 5.5: the sender, the receiver with its
    fragments and interleaved control frames, and both on a stream with short transfers. */
module WebSockets {
  import opened Bits
  import opened Blocks
  import opened Codecs
  import opened Streams
  import opened Wrappers

  const CONTINUE: nat := 0
  const TEXT_FRAME: nat := 1
  const BIN_FRAME: nat := 2
  const CLOSE: nat := 8
  const PING: nat := 9
  const PONG: nat := 10

  const SIZE_RANGE: nat := 0x1_0000_0000_0000_0000

  // ---------------------------------------------------------------- the two-byte head

  /** WSFrameHead; rsv holds rsv3, rsv2 and rsv1, from the low bit up. */
  datatype Head = Head(fin: bool, rsv: nat, opcode: nat, mask: bool, payload: nat)

  predicate ValidHead(h: Head) { h.rsv < 8 && h.opcode < 16 && h.payload < 0x80 }

  /** The bit fields as they lie in memory. */
  function HeadBytes(h: Head): (r: seq<byte>)
    requires ValidHead(h)
    ensures |r| == 2
  {
    [Byte(h.opcode + 16 * h.rsv + if h.fin then 0x80 else 0), Byte(h.payload + if h.mask then 0x80 else 0)]
  }

  function ParseHead(b: seq<byte>): (h: Head)
    requires |b| == 2
    ensures ValidHead(h)
  {
    Head(b[0].code >= 0x80, b[0].code / 16 % 8, b[0].code % 16, b[1].code >= 0x80, b[1].code % 0x80)
  }

  lemma HeadRoundTrip(h: Head, b: seq<byte>)
    ensures ValidHead(h) ==> ParseHead(HeadBytes(h)) == h
    ensures |b| == 2 ==> HeadBytes(ParseHead(b)) == b
  {
    if |b| == 2 {
      var x, y := b[0].code, b[1].code;
      assert x == x % 16 + 16 * (x / 16 % 8) + (if x >= 0x80 then 0x80 else 0);
      assert b == [b[0], b[1]];
    }
  }

  // ---------------------------------------------------------------- masking

  function XorByte(a: byte, m: byte): byte {
    assert PowerOfTwo(4) == 16 && PowerOfTwo(8) == 0x100;
    Byte(Bitwise(Xor, a.code, m.code, 8))
  }

  lemma XorByteTwice(a: byte, m: byte)
    ensures XorByte(XorByte(a, m), m) == a
    ensures XorByte(a, m) == a <==> m.code == 0
  {
    assert PowerOfTwo(4) == 16 && PowerOfTwo(8) == 0x100;
    XorTwice(a.code, m.code, 8);
  }

  function Masked(data: seq<byte>, mask: seq<byte>): (r: seq<byte>)
    requires |mask| == 4
    ensures |r| == |data|
  {
    seq(|data|, i requires 0 <= i < |data| => XorByte(data[i], mask[i % 4]))
  }

  /** Unmasking is masking again; masking changes the data exactly when it meets a mask byte
      that is not zero. */
  lemma MaskedTwice(data: seq<byte>, mask: seq<byte>)
    requires |mask| == 4
    ensures Masked(Masked(data, mask), mask) == data
    ensures Masked(data, mask) == data <==> forall i :: 0 <= i < |data| ==> mask[i % 4].code == 0
  {
    forall i | 0 <= i < |data|
      ensures Masked(Masked(data, mask), mask)[i] == data[i]
      ensures Masked(data, mask)[i] == data[i] <==> mask[i % 4].code == 0
    {
      XorByteTwice(data[i], mask[i % 4]);
    }
    if forall i :: 0 <= i < |data| ==> mask[i % 4].code == 0 {
      assert Masked(data, mask) == data;
    }
  }

  // ---------------------------------------------------------------- what is sent

  datatype Mask = Unmasked | Key(bytes: seq<byte>)

  /** A message sent in pieces: data fragments with control frames between them. */
  datatype Piece =
    | Fragment(fin: bool, opcode: nat, data: seq<byte>, key: Mask)
    | Control(opcode: nat, data: seq<byte>, key: Mask)

  predicate ValidMask(m: Mask) { m.Key? ==> |m.bytes| == 4 }

  /** What a sender can be asked to send: data opcodes for fragments, pings and pongs
      between them. */
  predicate Sendable(p: Piece) {
    && ValidMask(p.key)
    && match p
       case Fragment(_, opcode, data, _) => opcode <= BIN_FRAME && |data| < SIZE_RANGE
       case Control(opcode, data, _) => opcode in {PING, PONG} && |data| < 126
  }

  /** The three length forms: the code in the head, and the bytes after it. */
  function LengthCode(size: nat): (r: nat)
    ensures r < 0x80
  {
    if size < 126 then size else if size < 0x1_0000 then 126 else 127
  }

  function LengthField(size: nat): seq<byte> {
    if size < 126 then [] else if size < 0x1_0000 then Store(size, 2, Big) else Store(size, 8, Big)
  }

  function KeyBytes(m: Mask): seq<byte> { if m.Key? then m.bytes else [] }

  function Payload(data: seq<byte>, m: Mask): (r: seq<byte>)
    requires ValidMask(m)
    ensures |r| == |data|
  {
    if m.Key? then Masked(data, m.bytes) else data
  }

  function HeadOf(p: Piece): (h: Head)
    requires Sendable(p)
    ensures ValidHead(h)
  {
    match p
    case Fragment(fin, opcode, data, key) => Head(fin, 0, opcode, key.Key?, LengthCode(|data|))
    case Control(opcode, data, key) => Head(true, 0, opcode, key.Key?, |data|)
  }

  function FieldOf(p: Piece): seq<byte> { if p.Fragment? then LengthField(|p.data|) else [] }

  function Encode(p: Piece): seq<byte>
    requires Sendable(p)
  {
    HeadBytes(HeadOf(p)) + (FieldOf(p) + (KeyBytes(p.key) + Payload(p.data, p.key)))
  }

  function EncodeAll(ps: seq<Piece>): seq<byte>
    requires forall i :: 0 <= i < |ps| ==> Sendable(ps[i])
  {
    if ps == [] then [] else Encode(ps[0]) + EncodeAll(ps[1..])
  }

  // ---------------------------------------------------------------- what is received

  datatype Taken<T> = Taken(value: T, rest: seq<byte>) | Nothing

  /** A successful readFixSize(): the bytes, when the int it returns is positive. */
  function Take(input: seq<byte>, n: nat): (r: Taken<seq<byte>>)
    ensures r.Taken? ==> |r.rest| <= |input|
    ensures n <= INT_MAX ==> Wanted(n) == AsInt(n) == n
  {
    if Wanted(n) <= |input| && AsInt(n) > 0 then Taken(input[..Wanted(n)], input[Wanted(n)..]) else Nothing
  }

  function ReadLength(code: nat, input: seq<byte>): (r: Taken<nat>)
    ensures r.Taken? ==> |r.rest| <= |input|
  {
    if code == 126 || code == 127 then
      match Take(input, if code == 126 then 2 else 8)
      case Taken(b, rest) => Taken(Load(b, Big), rest)
      case Nothing => Nothing
    else Taken(code, input)
  }

  function ReadKey(mask: bool, input: seq<byte>): (r: Taken<Mask>)
    ensures r.Taken? ==> ValidMask(r.value) && |r.rest| <= |input|
  {
    if !mask then Taken(Unmasked, input)
    else
      match Take(input, 4)
      case Taken(b, rest) => Taken(Key(b), rest)
      case Nothing => Nothing
  }

  function ReadPayload(key: Mask, input: seq<byte>, n: nat): (r: Taken<seq<byte>>)
    requires ValidMask(key)
    ensures r.Taken? ==> |r.rest| <= |input|
  {
    match Take(input, n)
    case Taken(b, rest) => Taken(Payload(b, key), rest)
    case Nothing => Nothing
  }

  /** What one data frame comes to: its payload, or the end of the connection. */
  datatype Frame = Part(data: seq<byte>, rest: seq<byte>) | Stop

  /** The length is checked by a 64-bit sum, which can wrap around, and read by way of int64_t
      and int. */
  function ReadData(h: Head, input: seq<byte>, client: bool, max: nat, curLen: nat): (r: Frame)
    ensures r.Part? ==> |r.rest| <= |input|
  {
    if !client && !h.mask then Stop
    else
      match ReadLength(h.payload, input)
      case Nothing => Stop
      case Taken(length, rest) =>
        if (curLen + length) % SIZE_RANGE >= max then Stop
        else
          match ReadKey(h.mask, rest)
          case Nothing => Stop
          case Taken(key, rest) =>
            match ReadPayload(key, rest, length)
            case Nothing => Stop
            case Taken(data, rest) => Part(data, rest)
  }

  /** A control frame; its length is the seven-bit field itself, and zero is no failure here. */
  function ReadControl(h: Head, input: seq<byte>): (r: Taken<seq<byte>>)
    ensures r.Taken? ==> |r.rest| <= |input|
  {
    match ReadKey(h.mask, input)
    case Nothing => Nothing
    case Taken(key, rest) => if h.payload == 0 then Taken([], rest) else ReadPayload(key, rest, h.payload)
  }

  datatype Outcome =
    | Message(opcode: nat, data: seq<byte>, rest: seq<byte>, pongs: nat)
    | Closed(pongs: nat)

  /** WSRecvMessage() on the bytes that arrive. */
  function Receive(input: seq<byte>, client: bool, max: nat, opcode: nat, data: seq<byte>, pongs: nat): Outcome
    decreases |input|
  {
    assert Wanted(2) == 2;
    match Take(input, 2)
    case Nothing => Closed(pongs)
    case Taken(b, rest) =>
      var h := ParseHead(b);
      if h.opcode in {CLOSE, PING, PONG} then
        match ReadControl(h, rest)
        case Nothing => Closed(pongs)
        case Taken(_, rest) =>
          if h.opcode == CLOSE then Closed(pongs)
          else Receive(rest, client, max, opcode, data, if h.opcode == PING then pongs + 1 else pongs)
      else if h.opcode in {CONTINUE, TEXT_FRAME, BIN_FRAME} then
        match ReadData(h, rest, client, max, |data|)
        case Stop => Closed(pongs)
        case Part(more, rest) =>
          var op := if opcode == 0 && h.opcode != CONTINUE then h.opcode else opcode;
          if h.fin then Message(op, data + more, rest, pongs)
          else Receive(rest, client, max, op, data + more, pongs)
      else Closed(pongs)
  }

  // ---------------------------------------------------------------- the length check

  /** A length that is too large passes the check exactly when the sum wraps around, which
      takes a length field of at least 2^64 - curLen. */
  lemma CheckWrapsIff(curLen: nat, length: nat, max: nat)
    requires curLen < max <= INT_MAX + 1 && length < SIZE_RANGE
    ensures (curLen + length) % SIZE_RANGE < max <= curLen + length <==> length >= SIZE_RANGE - curLen
  {
    if curLen + length < SIZE_RANGE {
      ModSmall(curLen + length, SIZE_RANGE);
    } else {
      ModUnique(curLen + length, SIZE_RANGE, 1, curLen + length - SIZE_RANGE);
    }
  }

  /** Such a length is negative as an int, so nothing is read. */
  lemma WrappedReadsNothing(curLen: nat, length: nat, input: seq<byte>)
    requires curLen <= INT_MAX && SIZE_RANGE - curLen <= length < SIZE_RANGE
    ensures AsLong(length) < 0 && AsInt(length) < 0 && Take(input, length) == Nothing
  {
    var k := SIZE_RANGE - length;
    ModUnique(length, INT_RANGE, 0xFFFF_FFFF, INT_RANGE - k);
    ModSmall(length, LONG_RANGE);
  }

  lemma LengthBelowRange(code: nat, input: seq<byte>)
    requires code < 0x80
    ensures ReadLength(code, input).Taken? ==> ReadLength(code, input).value < SIZE_RANGE
  {
    WordSizes();
    if code == 126 || code == 127 {
      var n := if code == 126 then 2 else 8;
      if Take(input, n).Taken? {
        LoadBound(Take(input, n).value, Big);
      }
    }
  }

  /** A frame whose length wraps past the check ends the connection. */
  lemma WrappedLengthCloses(h: Head, input: seq<byte>, client: bool, max: nat, curLen: nat)
    requires ValidHead(h) && curLen < max <= INT_MAX + 1
    requires ReadLength(h.payload, input).Taken? && ReadLength(h.payload, input).value >= SIZE_RANGE - curLen
    ensures ReadData(h, input, client, max, curLen) == Stop
  {
    var length := ReadLength(h.payload, input);
    LengthBelowRange(h.payload, input);
    var key := ReadKey(h.mask, length.rest);
    if key.Taken? {
      WrappedReadsNothing(curLen, length.value, key.rest);
    }
  }

  /** One: behind a one-byte fragment, a frame that announces 2^64 - 1 bytes. */
  lemma WrappingFrame(max: nat)
    requires 1 < max <= INT_MAX + 1
    ensures var h, field := Head(true, 0, CONTINUE, false, 127), Store(SIZE_RANGE - 1, 8, Big);
            && ReadLength(h.payload, field) == Taken(SIZE_RANGE - 1, [])
            && (1 + (SIZE_RANGE - 1)) % SIZE_RANGE < max
            && ReadData(h, field, true, max, 1) == Stop
  {
    var h, field := Head(true, 0, CONTINUE, false, 127), Store(SIZE_RANGE - 1, 8, Big);
    WordSizes();
    LoadStore(SIZE_RANGE - 1, 8, Big);
    ModSmall(SIZE_RANGE - 1, SIZE_RANGE);
    TakeFront(field, []);
    assert field + [] == field;
    WrappedLengthCloses(h, field, true, max, 1);
  }

  /** The same seen from the receive loop: the connection is closed. */
  lemma WrappingFrameCloses(max: nat, opcode: nat, data: seq<byte>, pongs: nat)
    requires 1 < max <= INT_MAX + 1 && |data| == 1
    ensures var input := HeadBytes(Head(true, 0, CONTINUE, false, 127)) + Store(SIZE_RANGE - 1, 8, Big);
            Receive(input, true, max, opcode, data, pongs) == Closed(pongs)
  {
    var h, field := Head(true, 0, CONTINUE, false, 127), Store(SIZE_RANGE - 1, 8, Big);
    WrappingFrame(max);
    HeadRoundTrip(h, []);
    TakeFront(HeadBytes(h), field);
  }

  /** A payload that is taken fits below the maximum. */
  lemma PartFits(h: Head, input: seq<byte>, client: bool, max: nat, curLen: nat)
    requires ValidHead(h) && curLen <= INT_MAX && max <= INT_MAX + 1
    ensures var f := ReadData(h, input, client, max, curLen); f.Part? ==> curLen + |f.data| < max
  {
    var length := ReadLength(h.payload, input);
    if length.Taken? && (curLen + length.value) % SIZE_RANGE < max {
      LengthBelowRange(h.payload, input);
      var key := ReadKey(h.mask, length.rest);
      if key.Taken? {
        if curLen + length.value >= SIZE_RANGE {
          WrappedReadsNothing(curLen, length.value, key.rest);
        } else {
          ModSmall(curLen + length.value, SIZE_RANGE);
        }
      }
    }
  }

  // ---------------------------------------------------------------- one frame, sent and received

  lemma TakeFront(front: seq<byte>, rest: seq<byte>)
    requires |front| <= INT_MAX
    ensures Take(front + rest, |front|) == if front == [] then Nothing else Taken(front, rest)
  {
    if front != [] {
      assert (front + rest)[..|front|] == front && (front + rest)[|front|..] == rest;
    }
  }

  lemma LengthRoundTrip(size: nat, rest: seq<byte>)
    requires size < SIZE_RANGE
    ensures ReadLength(LengthCode(size), LengthField(size) + rest) == Taken(size, rest)
  {
    WordSizes();
    TakeFront(LengthField(size), rest);
    if size < 126 {
      assert LengthField(size) + rest == rest;
    } else {
      var n := if size < 0x1_0000 then 2 else 8;
      LoadStore(size, n, Big);
      ModSmall(size, Words(n));
    }
  }

  lemma KeyRoundTrip(key: Mask, rest: seq<byte>)
    requires ValidMask(key)
    ensures ReadKey(key.Key?, KeyBytes(key) + rest) == Taken(key, rest)
  {
    TakeFront(KeyBytes(key), rest);
    assert key.Unmasked? ==> KeyBytes(key) + rest == rest;
  }

  lemma PayloadRoundTrip(data: seq<byte>, key: Mask, rest: seq<byte>)
    requires ValidMask(key) && |data| <= INT_MAX
    ensures ReadPayload(key, Payload(data, key) + rest, |data|) == if data == [] then Nothing else Taken(data, rest)
  {
    TakeFront(Payload(data, key), rest);
    if key.Key? {
      MaskedTwice(data, key.bytes);
    }
  }

  /** Whether the receiver takes a fragment when curLen bytes are already there. */
  predicate Accepted(p: Piece, client: bool, max: nat, curLen: nat)
    requires p.Fragment?
  {
    p.data != [] && (client || p.key.Key?) && curLen + |p.data| < max
  }

  /** A fragment after its head. */
  function BodyOf(p: Piece, rest: seq<byte>): seq<byte>
    requires p.Fragment? && Sendable(p)
  {
    LengthField(|p.data|) + (KeyBytes(p.key) + (Payload(p.data, p.key) + rest))
  }

  lemma FragmentTaken(p: Piece, rest: seq<byte>, client: bool, max: nat, curLen: nat)
    requires p.Fragment? && Sendable(p) && max <= INT_MAX + 1 && Accepted(p, client, max, curLen)
    ensures ReadData(HeadOf(p), BodyOf(p, rest), client, max, curLen) == Part(p.data, rest)
  {
    var length, body := |p.data|, Payload(p.data, p.key) + rest;
    LengthRoundTrip(length, KeyBytes(p.key) + body);
    KeyRoundTrip(p.key, body);
    ModSmall(curLen + length, SIZE_RANGE);
    PayloadRoundTrip(p.data, p.key, rest);
  }

  lemma FragmentRefused(p: Piece, rest: seq<byte>, client: bool, max: nat, curLen: nat)
    requires p.Fragment? && Sendable(p) && max <= INT_MAX + 1 && curLen <= INT_MAX && !Accepted(p, client, max, curLen)
    ensures ReadData(HeadOf(p), BodyOf(p, rest), client, max, curLen) == Stop
  {
    var length, body := |p.data|, Payload(p.data, p.key) + rest;
    LengthRoundTrip(length, KeyBytes(p.key) + body);
    KeyRoundTrip(p.key, body);
    if curLen + length >= SIZE_RANGE {
      WrappedReadsNothing(curLen, length, body);
    } else {
      ModSmall(curLen + length, SIZE_RANGE);
    }
  }

  lemma FragmentRoundTrip(p: Piece, rest: seq<byte>, client: bool, max: nat, curLen: nat)
    requires p.Fragment? && Sendable(p) && max <= INT_MAX + 1 && curLen <= INT_MAX
    ensures ReadData(HeadOf(p), BodyOf(p, rest), client, max, curLen) ==
            if Accepted(p, client, max, curLen) then Part(p.data, rest) else Stop
  {
    if Accepted(p, client, max, curLen) {
      FragmentTaken(p, rest, client, max, curLen);
    } else {
      FragmentRefused(p, rest, client, max, curLen);
    }
  }

  lemma ControlRoundTrip(p: Piece, rest: seq<byte>)
    requires p.Control? && Sendable(p)
    ensures ReadControl(HeadOf(p), KeyBytes(p.key) + (Payload(p.data, p.key) + rest)) == Taken(p.data, rest)
  {
    KeyRoundTrip(p.key, Payload(p.data, p.key) + rest);
    PayloadRoundTrip(p.data, p.key, rest);
    assert p.data == [] ==> Payload(p.data, p.key) + rest == rest;
  }

  /** Encode() cut where the receiver cuts it. */
  lemma EncodeParts(p: Piece, rest: seq<byte>)
    requires Sendable(p)
    ensures Take(Encode(p) + rest, 2)
            == Taken(HeadBytes(HeadOf(p)), FieldOf(p) + (KeyBytes(p.key) + (Payload(p.data, p.key) + rest)))
  {
    var tail := FieldOf(p) + (KeyBytes(p.key) + (Payload(p.data, p.key) + rest));
    assert Encode(p) + rest == HeadBytes(HeadOf(p)) + tail;
    TakeFront(HeadBytes(HeadOf(p)), tail);
  }

  lemma ReceiveControl(p: Piece, rest: seq<byte>, client: bool, max: nat, opcode: nat, data: seq<byte>, pongs: nat)
    requires p.Control? && Sendable(p)
    ensures Receive(Encode(p) + rest, client, max, opcode, data, pongs)
            == Receive(rest, client, max, opcode, data, if p.opcode == PING then pongs + 1 else pongs)
  {
    EncodeParts(p, rest);
    HeadRoundTrip(HeadOf(p), []);
    var tail := KeyBytes(p.key) + (Payload(p.data, p.key) + rest);
    assert FieldOf(p) + tail == tail;
    ControlRoundTrip(p, rest);
  }

  function NextOpcode(opcode: nat, p: Piece): nat {
    if opcode == 0 && p.Fragment? then p.opcode else opcode
  }

  lemma ReceiveFragment(p: Piece, rest: seq<byte>, client: bool, max: nat, opcode: nat, data: seq<byte>, pongs: nat)
    requires p.Fragment? && Sendable(p) && max <= INT_MAX + 1 && |data| <= INT_MAX
    ensures var out := Receive(Encode(p) + rest, client, max, opcode, data, pongs);
            if !Accepted(p, client, max, |data|) then !out.Message?
            else if p.fin then out == Message(NextOpcode(opcode, p), data + p.data, rest, pongs)
            else out == Receive(rest, client, max, NextOpcode(opcode, p), data + p.data, pongs)
  {
    EncodeParts(p, rest);
    HeadRoundTrip(HeadOf(p), []);
    FragmentRoundTrip(p, rest, client, max, |data|);
  }

  // ---------------------------------------------------------------- whole messages

  /** The pieces of one message: the last one is its only final fragment. */
  predicate OneMessage(ps: seq<Piece>) {
    && ps != [] && ps[|ps| - 1].Fragment? && ps[|ps| - 1].fin
    && forall i :: 0 <= i < |ps| - 1 ==> ps[i].Fragment? ==> !ps[i].fin
  }

  function Content(ps: seq<Piece>): seq<byte> {
    if ps == [] then [] else (if ps[0].Fragment? then ps[0].data else []) + Content(ps[1..])
  }

  /** The first opcode that is not CONTINUE. */
  function FirstOpcode(ps: seq<Piece>, opcode: nat): nat {
    if ps == [] then opcode else FirstOpcode(ps[1..], NextOpcode(opcode, ps[0]))
  }

  function Pings(ps: seq<Piece>): nat {
    if ps == [] then 0 else (if ps[0].Control? && ps[0].opcode == PING then 1 else 0) + Pings(ps[1..])
  }

  /** No fragment is empty, a server gets masked ones only, and the total stays below max. */
  predicate Deliverable(ps: seq<Piece>, client: bool, max: nat, curLen: nat) {
    && (forall i :: 0 <= i < |ps| && ps[i].Fragment? ==> ps[i].data != [] && (client || ps[i].key.Key?))
    && curLen + |Content(ps)| < max
  }

  lemma RestOf(ps: seq<Piece>)
    requires |ps| > 1 && OneMessage(ps)
    ensures OneMessage(ps[1..]) && (ps[0].Control? || !ps[0].fin)
  {
    assert forall i :: 0 <= i < |ps| - 1 ==> ps[1..][i] == ps[i + 1];
  }

  lemma DeliverableCons(ps: seq<Piece>, client: bool, max: nat, curLen: nat)
    requires ps != []
    ensures Deliverable(ps, client, max, curLen) <==>
              if ps[0].Fragment? then
                Accepted(ps[0], client, max, curLen) && Deliverable(ps[1..], client, max, curLen + |ps[0].data|)
              else Deliverable(ps[1..], client, max, curLen)
  {
    assert forall i :: 0 < i < |ps| ==> ps[1..][i - 1] == ps[i];
    if forall i :: 0 <= i < |ps[1..]| && ps[1..][i].Fragment? ==>
                     ps[1..][i].data != [] && (client || ps[1..][i].key.Key?) {
      forall i | 0 < i < |ps| && ps[i].Fragment? ensures ps[i].data != [] && (client || ps[i].key.Key?) {
        assert ps[i] == ps[1..][i - 1];
      }
    }
  }

  /** The outcome of receiving the pieces ps after opcode, data and pongs. */
  predicate Delivers(out: Outcome, ps: seq<Piece>, rest: seq<byte>, client: bool, max: nat,
                     opcode: nat, data: seq<byte>, pongs: nat) {
    if Deliverable(ps, client, max, |data|) then
      out == Message(FirstOpcode(ps, opcode), data + Content(ps), rest, pongs + Pings(ps))
    else !out.Message?
  }

  lemma LastFragment(out: Outcome, ps: seq<Piece>, rest: seq<byte>, client: bool, max: nat,
                     opcode: nat, data: seq<byte>, pongs: nat)
    requires |ps| == 1 && ps[0].Fragment?
    requires if Accepted(ps[0], client, max, |data|)
             then out == Message(NextOpcode(opcode, ps[0]), data + ps[0].data, rest, pongs) else !out.Message?
    ensures Delivers(out, ps, rest, client, max, opcode, data, pongs)
  {
    DeliverableCons(ps, client, max, |data|);
    assert ps[1..] == [] && Content(ps) == ps[0].data;
  }

  lemma ControlFirst(out: Outcome, ps: seq<Piece>, rest: seq<byte>, client: bool, max: nat,
                     opcode: nat, data: seq<byte>, pongs: nat)
    requires ps != [] && ps[0].Control?
    requires Delivers(out, ps[1..], rest, client, max, opcode, data, if ps[0].opcode == PING then pongs + 1 else pongs)
    ensures Delivers(out, ps, rest, client, max, opcode, data, pongs)
  {
    DeliverableCons(ps, client, max, |data|);
    assert Content(ps) == Content(ps[1..]);
  }

  lemma FragmentFirst(out: Outcome, ps: seq<Piece>, rest: seq<byte>, client: bool, max: nat,
                      opcode: nat, data: seq<byte>, pongs: nat)
    requires ps != [] && ps[0].Fragment?
    requires if Accepted(ps[0], client, max, |data|)
             then Delivers(out, ps[1..], rest, client, max, NextOpcode(opcode, ps[0]), data + ps[0].data, pongs)
             else !out.Message?
    ensures Delivers(out, ps, rest, client, max, opcode, data, pongs)
  {
    DeliverableCons(ps, client, max, |data|);
    assert Content(ps) == ps[0].data + Content(ps[1..]);
    Reassociate(data, ps[0].data, Content(ps[1..]));
  }

  lemma EncodeAllCons(ps: seq<Piece>, rest: seq<byte>)
    requires ps != [] && forall i :: 0 <= i < |ps| ==> Sendable(ps[i])
    ensures EncodeAll(ps) + rest == Encode(ps[0]) + (EncodeAll(ps[1..]) + rest)
  {
    Reassociate(Encode(ps[0]), EncodeAll(ps[1..]), rest);
  }

  /** Round trip: whatever pieces a message was sent in, the receiver gives back its first
      opcode and its whole payload, answers every ping, and leaves the rest of the input
      alone, exactly when the message is Deliverable; otherwise it returns no message. */
  lemma {:induction false} MessageRoundTrip(ps: seq<Piece>, rest: seq<byte>, client: bool, max: nat,
                                            opcode: nat, data: seq<byte>, pongs: nat)
    requires OneMessage(ps) && max <= INT_MAX + 1 && |data| <= INT_MAX && forall i :: 0 <= i < |ps| ==> Sendable(ps[i])
    ensures Delivers(Receive(EncodeAll(ps) + rest, client, max, opcode, data, pongs),
                     ps, rest, client, max, opcode, data, pongs)
    decreases |ps|
  {
    var p, tail := ps[0], EncodeAll(ps[1..]) + rest;
    var out := Receive(EncodeAll(ps) + rest, client, max, opcode, data, pongs);
    EncodeAllCons(ps, rest);
    if |ps| == 1 {
      assert ps[1..] == [] && tail == rest;
      ReceiveFragment(p, rest, client, max, opcode, data, pongs);
      LastFragment(out, ps, rest, client, max, opcode, data, pongs);
    } else {
      RestOf(ps);
      if p.Control? {
        ReceiveControl(p, tail, client, max, opcode, data, pongs);
        MessageRoundTrip(ps[1..], rest, client, max, opcode, data, if p.opcode == PING then pongs + 1 else pongs);
        ControlFirst(out, ps, rest, client, max, opcode, data, pongs);
      } else {
        ReceiveFragment(p, tail, client, max, opcode, data, pongs);
        if Accepted(p, client, max, |data|) {
          MessageRoundTrip(ps[1..], rest, client, max, NextOpcode(opcode, p), data + p.data, pongs);
        }
        FragmentFirst(out, ps, rest, client, max, opcode, data, pongs);
      }
    }
  }

  // ---------------------------------------------------------------- what ends the receiver

  /** Neither data nor a ping or pong: a CLOSE frame, or a reserved opcode. */
  predicate Ends(first: byte) { first.code % 0x10 !in {0, 1, 2, 9, 10} }

  /** Pieces of a message that is not complete. */
  predicate Incomplete(ps: seq<Piece>) {
    forall i :: 0 <= i < |ps| ==> Sendable(ps[i]) && (ps[i].Fragment? ==> !ps[i].fin)
  }

  lemma EndsAtOnce(b: seq<byte>, rest: seq<byte>, client: bool, max: nat, opcode: nat, data: seq<byte>, pongs: nat)
    requires |b| == 2 && Ends(b[0])
    ensures Receive(b + rest, client, max, opcode, data, pongs) == Closed(pongs)
  {
    TakeFront(b, rest);
  }

  /** A CLOSE frame, masked or not and with any payload, or a frame with a reserved opcode ends the
      receiver without a message, whatever pieces have come before and whatever follows. */
  lemma {:induction false} CloseFrameEnds(ps: seq<Piece>, b: seq<byte>, rest: seq<byte>, client: bool, max: nat,
                                          opcode: nat, data: seq<byte>, pongs: nat)
    requires Incomplete(ps) && |b| == 2 && Ends(b[0]) && max <= INT_MAX + 1 && |data| <= INT_MAX
    ensures !Receive(EncodeAll(ps) + (b + rest), client, max, opcode, data, pongs).Message?
    decreases |ps|
  {
    if ps == [] {
      assert [] + (b + rest) == b + rest;
      EndsAtOnce(b, rest, client, max, opcode, data, pongs);
    } else {
      var p, tail := ps[0], EncodeAll(ps[1..]) + (b + rest);
      EncodeAllCons(ps, b + rest);
      assert Incomplete(ps[1..]);
      if p.Control? {
        ReceiveControl(p, tail, client, max, opcode, data, pongs);
        CloseFrameEnds(ps[1..], b, rest, client, max, opcode, data, if p.opcode == PING then pongs + 1 else pongs);
      } else {
        ReceiveFragment(p, tail, client, max, opcode, data, pongs);
        if Accepted(p, client, max, |data|) {
          CloseFrameEnds(ps[1..], b, rest, client, max, NextOpcode(opcode, p), data + p.data, pongs);
        }
      }
    }
  }

  /** The input starts with pieces of an incomplete message and such a frame. */
  ghost predicate IsClosing(input: seq<byte>, ps: seq<Piece>, b: seq<byte>, rest: seq<byte>) {
    Incomplete(ps) && |b| == 2 && Ends(b[0]) && input == EncodeAll(ps) + (b + rest)
  }

  ghost predicate HoldsClosing(input: seq<byte>) {
    exists ps: seq<Piece>, b: seq<byte>, rest: seq<byte> :: IsClosing(input, ps, b, rest)
  }

  lemma ClosingHasNoMessage(input: seq<byte>, client: bool, max: nat)
    requires HoldsClosing(input) && max <= INT_MAX + 1
    ensures !Receive(input, client, max, 0, [], 0).Message?
  {
    var ps: seq<Piece>, b: seq<byte>, rest: seq<byte> :| IsClosing(input, ps, b, rest);
    CloseFrameEnds(ps, b, rest, client, max, 0, [], 0);
  }

  // ---------------------------------------------------------------- on a stream

  class WSFrameMessage {
    var opcode: nat
    var data: seq<byte>

    constructor (opcode: nat, data: seq<byte>)
      ensures this.opcode == opcode && this.data == data
    {
      this.opcode, this.data := opcode, data;
    }
  }

  /** The frame of a message; the opcode is cut to its four bits. */
  function FrameBytes(fin: bool, opcode: nat, data: seq<byte>, key: Mask): seq<byte>
    requires ValidMask(key)
  {
    HeadBytes(Head(fin, 0, opcode % 16, key.Key?, LengthCode(|data|)))
    + (LengthField(|data|) + (KeyBytes(key) + Payload(data, key)))
  }

  /** The in-place masking loops: data[cur + i] ^= mask[i % 4]. */
  method MaskFrom(data: seq<byte>, cur: nat, mask: seq<byte>) returns (r: seq<byte>)
    requires cur <= |data| && |mask| == 4
    ensures r == data[..cur] + Masked(data[cur..], mask)
  {
    r := data;
    for j := cur to |data|
      invariant |r| == |data|
      invariant forall k :: 0 <= k < |data| ==>
                r[k] == if cur <= k < j then XorByte(data[k], mask[(k - cur) % 4]) else data[k]
    {
      r := r[j := XorByte(r[j], mask[(j - cur) % 4])];
    }
  }

  /** The next part of a frame: `done` has been sent before it and `rest` follows. */
  method Put(stream: Stream, part: seq<byte>, ghost tx: seq<byte>, ghost done: seq<byte>, ghost rest: seq<byte>)
    returns (ok: bool, ghost moved: nat)
    requires stream.tx == tx + done
    modifies stream`tx
    ensures moved <= |done + (part + rest)| && stream.tx == tx + (done + (part + rest))[..moved]
    ensures ok ==> stream.tx == tx + (done + part) && moved == |done + part|
    ensures ok ==> AsInt(|part|) > 0
    ensures stream.reliable && stream.connected ==> moved == |done + part| && (ok <==> AsInt(|part|) > 0)
  {
    var ret, m := stream.WriteFixSize(part);
    moved := |done| + m;
    assert (done + (part + rest))[..moved] == done + part[..m];
    ok := ret > 0;
    assert m == |part| ==> part[..m] == part;
  }

  /** WSSendMessage(); `mask` is what rand() gives.  A client masks the message in place. */
  method SendMessage(stream: Stream, msg: WSFrameMessage, client: bool, fin: bool, mask: seq<byte>)
    returns (r: int, ghost moved: nat)
    requires |mask| == 4
    modifies stream`tx, stream`connected, msg`data
    ensures var frame := FrameBytes(fin, msg.opcode, old(msg.data), if client then Key(mask) else Unmasked);
            && moved <= |frame| && stream.tx == old(stream.tx) + frame[..moved]
            && (r != -1 ==> moved == |frame| && r == AsInt(|old(msg.data)| + 2))
            && (stream.reliable && old(stream.connected) && AsInt(|old(msg.data)|) > 0 ==> r != -1)
    ensures r != -1 ==> AsInt(|old(msg.data)|) > 0
    ensures r != -1 ==> msg.data == if client then Masked(old(msg.data), mask) else old(msg.data)
    ensures if r == -1 then !stream.connected else stream.connected == old(stream.connected)
  {
    var data, size := msg.data, |msg.data|;
    var key := if client then Key(mask) else Unmasked;
    var head, field := HeadBytes(Head(fin, 0, msg.opcode % 16, client, LengthCode(size))), LengthField(size);
    ghost var body := KeyBytes(key) + Payload(data, key);
    assert FrameBytes(fin, msg.opcode, data, key) == head + (field + body);
    ghost var tx := stream.tx;
    var ok;
    ok, moved := SendHead(stream, head, field, tx, body);
    if ok {
      Reassociate(head, field, body);
      ok, moved := SendBody(stream, msg, client, mask, tx, head + field);
    }
    if !ok {
      stream.Close();
      return -1, moved;
    }
    r := AsInt(size + 2);
  }

  method SendHead(stream: Stream, head: seq<byte>, field: seq<byte>, ghost tx: seq<byte>, ghost rest: seq<byte>)
    returns (ok: bool, ghost moved: nat)
    requires stream.tx == tx && 0 < |head| < 10 && |field| < 10
    modifies stream`tx
    ensures moved <= |head + (field + rest)| && stream.tx == tx + (head + (field + rest))[..moved]
    ensures ok ==> stream.tx == tx + (head + field)
    ensures stream.reliable && stream.connected ==> ok
  {
    assert tx + [] == tx && [] + (head + (field + rest)) == head + (field + rest) && [] + head == head;
    ok, moved := Put(stream, head, tx, [], field + rest);
    if ok && field != [] {
      ok, moved := Put(stream, field, tx, head, rest);
    }
  }

  method SendBody(stream: Stream, msg: WSFrameMessage, client: bool, mask: seq<byte>, ghost tx: seq<byte>,
                  ghost done: seq<byte>)
    returns (ok: bool, ghost moved: nat)
    requires |mask| == 4 && stream.tx == tx + done
    modifies stream`tx, msg`data
    ensures var key := if client then Key(mask) else Unmasked;
            var all := done + (KeyBytes(key) + Payload(old(msg.data), key));
            && moved <= |all| && stream.tx == tx + all[..moved]
            && (ok ==> moved == |all| && msg.data == Payload(old(msg.data), key) && AsInt(|msg.data|) > 0)
            && (stream.reliable && stream.connected && AsInt(|old(msg.data)|) > 0 ==> ok)
  {
    if client {
      var data := MaskFrom(msg.data, 0, mask);
      msg.data := data;
      assert data == Masked(old(msg.data), mask);
      ok, moved := Put(stream, mask, tx, done, data);
      if ok {
        Reassociate(done, mask, data);
        ok, moved := PutLast(stream, data, tx, done + mask);
      }
    } else {
      Reassociate(done, [], msg.data);
      assert done + [] == done;
      ok, moved := PutLast(stream, msg.data, tx, done);
    }
  }

  method PutLast(stream: Stream, part: seq<byte>, ghost tx: seq<byte>, ghost done: seq<byte>)
    returns (ok: bool, ghost moved: nat)
    requires stream.tx == tx + done
    modifies stream`tx
    ensures moved <= |done + part| && stream.tx == tx + (done + part)[..moved]
    ensures ok ==> moved == |done + part| && AsInt(|part|) > 0
    ensures stream.reliable && stream.connected ==> (ok <==> AsInt(|part|) > 0)
  {
    assert done + (part + []) == done + part;
    ok, moved := Put(stream, part, tx, done, []);
  }

  /** WSPing() and WSPong(): an empty control frame. */
  method SendControl(stream: Stream, opcode: nat) returns (v: int, ghost moved: nat)
    requires opcode in {PING, PONG}
    modifies stream`tx, stream`connected
    ensures var frame := Encode(Control(opcode, [], Unmasked));
            && moved <= |frame| && stream.tx == old(stream.tx) + frame[..moved]
            && (v > 0 <==> moved == |frame|)
    ensures if v <= 0 then !stream.connected else stream.connected == old(stream.connected)
    ensures stream.reliable && old(stream.connected) ==> v > 0
  {
    var head := HeadBytes(Head(true, 0, opcode, false, 0));
    assert Encode(Control(opcode, [], Unmasked)) == head;
    v, moved := stream.WriteFixSize(head);
    if v <= 0 {
      stream.Close();
    }
  }

  /** readFixSize() where zero or less is a failure. */
  method ReadBytes(stream: Stream, n: nat) returns (ok: bool, data: seq<byte>)
    modifies stream`rx
    ensures ok ==> Take(old(stream.rx), n) == Taken(data, stream.rx)
    ensures stream.reliable && stream.connected ==> (ok <==> Take(old(stream.rx), n).Taken?)
  {
    var ret;
    ret, data := stream.ReadFixSize(n);
    ok := ret > 0;
  }

  method ReadKeyAt(stream: Stream, mask: bool) returns (ok: bool, key: Mask)
    modifies stream`rx
    ensures ok ==> ReadKey(mask, old(stream.rx)) == Taken(key, stream.rx)
    ensures stream.reliable && stream.connected ==> (ok <==> ReadKey(mask, old(stream.rx)).Taken?)
  {
    ok, key := true, Unmasked;
    if mask {
      var b;
      ok, b := ReadBytes(stream, 4);
      if ok {
        key := Key(b);
      }
    }
  }

  method ReadLengthAt(stream: Stream, code: nat) returns (ok: bool, length: nat)
    modifies stream`rx
    ensures ok ==> ReadLength(code, old(stream.rx)) == Taken(length, stream.rx)
    ensures stream.reliable && stream.connected ==> (ok <==> ReadLength(code, old(stream.rx)).Taken?)
  {
    ok, length := true, code;
    if code == 126 || code == 127 {
      var b;
      ok, b := ReadBytes(stream, if code == 126 then 2 else 8);
      length := Load(b, Big);
    }
  }

  method ReadPayloadAt(stream: Stream, key: Mask, n: nat) returns (ok: bool, data: seq<byte>)
    requires ValidMask(key)
    modifies stream`rx
    ensures ok ==> ReadPayload(key, old(stream.rx), n) == Taken(data, stream.rx)
    ensures stream.reliable && stream.connected ==> (ok <==> ReadPayload(key, old(stream.rx), n).Taken?)
  {
    ok, data := ReadBytes(stream, n);
    if ok && key.Key? {
      ghost var raw := data;
      data := MaskFrom(data, 0, key.bytes);
      assert raw[0..] == raw && raw[..0] + Masked(raw, key.bytes) == Masked(raw, key.bytes);
    }
  }

  method ReadControlAt(stream: Stream, h: Head) returns (ok: bool)
    requires ValidHead(h)
    modifies stream`rx
    ensures ok ==> ReadControl(h, old(stream.rx)).Taken? && ReadControl(h, old(stream.rx)).rest == stream.rx
    ensures stream.reliable && stream.connected ==> (ok <==> ReadControl(h, old(stream.rx)).Taken?)
  {
    var key;
    ok, key := ReadKeyAt(stream, h.mask);
    if ok && h.payload > 0 {
      var payload;
      ok, payload := ReadPayloadAt(stream, key, h.payload);
    }
  }

  /** A data frame after its head. */
  method ReadDataAt(stream: Stream, h: Head, client: bool, max: nat, curLen: nat) returns (f: Frame)
    requires ValidHead(h)
    modifies stream`rx
    ensures f.Part? ==> f.rest == stream.rx
    ensures !f.Stop? ==> f == ReadData(h, old(stream.rx), client, max, curLen)
    ensures stream.reliable && stream.connected ==> f == ReadData(h, old(stream.rx), client, max, curLen)
  {
    if !client && !h.mask {
      return Stop;
    }
    var ok, length := ReadLengthAt(stream, h.payload);
    if !ok || (curLen + length) % SIZE_RANGE >= max {
      return Stop;
    }
    var key;
    ok, key := ReadKeyAt(stream, h.mask);
    if !ok {
      return Stop;
    }
    var data;
    ok, data := ReadPayloadAt(stream, key, length);
    f := if ok then Part(data, stream.rx) else Stop;
  }

  function Pongs(n: nat): seq<byte> {
    if n == 0 then [] else Pongs(n - 1) + Encode(Control(PONG, [], Unmasked))
  }

  /** What one iteration of the receive loop leaves to do. */
  datatype Progress = More | Done | Fail

  /** A control frame after its head: a ping is answered with an empty pong. */
  method AnswerControl(stream: Stream, h: Head, ghost pongs: nat, ghost tx: seq<byte>)
    returns (ok: bool, ghost next: nat)
    requires ValidHead(h) && h.opcode in {CLOSE, PING, PONG} && stream.tx == tx + Pongs(pongs)
    modifies stream`rx, stream`tx, stream`connected
    ensures ok ==> h.opcode != CLOSE && next == if h.opcode == PING then pongs + 1 else pongs
    ensures ok ==> ReadControl(h, old(stream.rx)).Taken? && ReadControl(h, old(stream.rx)).rest == stream.rx
    ensures ok ==> stream.tx == tx + Pongs(next) && stream.connected == old(stream.connected)
    ensures stream.reliable && old(stream.connected) ==>
              (ok <==> ReadControl(h, old(stream.rx)).Taken? && h.opcode != CLOSE)
  {
    ok := ReadControlAt(stream, h);
    next := pongs;
    if !ok || h.opcode == CLOSE {
      return false, next;
    }
    if h.opcode == PING {
      ghost var moved;
      var v;
      v, moved := SendControl(stream, PONG);
      if v <= 0 {
        return false, next;
      }
      next := pongs + 1;
      assert tx + Pongs(pongs) + Encode(Control(PONG, [], Unmasked)) == tx + Pongs(next);
    }
  }

  /** One iteration: a control frame is answered or ends it, a data frame is added. */
  method ReceiveFrame(stream: Stream, client: bool, max: nat, opcode: nat, data: seq<byte>, ghost pongs: nat,
                      ghost tx: seq<byte>)
    returns (p: Progress, op: nat, all: seq<byte>, ghost next: nat)
    requires max <= INT_MAX + 1 && |data| <= INT_MAX && stream.tx == tx + Pongs(pongs)
    modifies stream`rx, stream`tx, stream`connected
    ensures p.More? || p.Done? ==> stream.tx == tx + Pongs(next) && stream.connected == old(stream.connected)
    ensures p.More? ==> |all| <= INT_MAX && |stream.rx| < |old(stream.rx)|
    ensures var out := Receive(old(stream.rx), client, max, opcode, data, pongs);
            match p
            case More => out == Receive(stream.rx, client, max, op, all, next)
            case Done => out == Message(op, all, stream.rx, next)
            case Fail => stream.reliable && old(stream.connected) ==> out.Closed?
  {
    op, all, next := opcode, data, pongs;
    var ok, b := ReadBytes(stream, 2);
    if !ok {
      return Fail, op, all, next;
    }
    var h := ParseHead(b);
    if h.opcode == CLOSE || h.opcode == PING || h.opcode == PONG {
      ok, next := AnswerControl(stream, h, pongs, tx);
      p := if ok then More else Fail;
    } else if h.opcode == CONTINUE || h.opcode == TEXT_FRAME || h.opcode == BIN_FRAME {
      PartFits(h, stream.rx, client, max, |data|);
      var f := ReadDataAt(stream, h, client, max, |data|);
      match f
      case Stop => p := Fail;
      case Part(more, _) =>
        all := data + more;
        if op == 0 && h.opcode != CONTINUE {
          op := h.opcode;
        }
        p := if h.fin then Done else More;
    } else {
      p := Fail;
    }
  }

  /** WSRecvMessage(): a returned message is the one Receive() finds in the arriving bytes, and
      everything after it is still to be read; on a reliable connection a message that is
      there is found. */
  method ReceiveMessage(stream: Stream, client: bool, max: nat)
    returns (msg: WSFrameMessage?, ghost pongs: nat)
    requires max <= INT_MAX + 1
    modifies stream`rx, stream`tx, stream`connected
    ensures var out := Receive(old(stream.rx), client, max, 0, [], 0);
            && (msg != null ==> out == Message(msg.opcode, msg.data, stream.rx, pongs))
            && (stream.reliable && old(stream.connected) ==> (msg != null <==> out.Message?))
    ensures msg != null ==> fresh(msg) && stream.connected == old(stream.connected)
                            && stream.tx == old(stream.tx) + Pongs(pongs)
    ensures msg == null ==> !stream.connected
    ensures HoldsClosing(old(stream.rx)) ==> msg == null
  {
    if HoldsClosing(stream.rx) {
      ClosingHasNoMessage(stream.rx, client, max);
    }
    var opcode: nat, data: seq<byte> := 0, [];
    pongs, msg := 0, null;
    assert stream.tx + [] == stream.tx;
    while true
      invariant stream.tx == old(stream.tx) + Pongs(pongs) && stream.connected == old(stream.connected)
      invariant |data| <= INT_MAX
      invariant Receive(old(stream.rx), client, max, 0, [], 0)
                == Receive(stream.rx, client, max, opcode, data, pongs)
      decreases |stream.rx|
    {
      var p;
      p, opcode, data, pongs := ReceiveFrame(stream, client, max, opcode, data, pongs, old(stream.tx));
      match p
      case More =>
      case Done =>
        msg := new WSFrameMessage(opcode, data);
        return;
      case Fail =>
        stream.Close();
        return;
    }
  }

  // ---------------------------------------------------------------- both ends

  /** What the functions of one end send: a client masks its fragments and a server does not,
      and pings and pongs are empty. */
  predicate SentBy(p: Piece, client: bool) {
    && Sendable(p)
    && match p
       case Fragment(_, _, _, key) => key.Key? == client
       case Control(_, data, key) => data == [] && key.Unmasked?
  }

  method SendPiece(stream: Stream, p: Piece, client: bool) returns (ok: bool)
    requires SentBy(p, client) && (p.Fragment? ==> 0 < |p.data| <= INT_MAX)
    requires stream.reliable && stream.connected
    modifies stream`tx, stream`connected
    ensures ok && stream.connected && stream.tx == old(stream.tx) + Encode(p)
  {
    ghost var moved;
    var r;
    match p
    case Fragment(fin, opcode, data, key) =>
      var msg := new WSFrameMessage(opcode, data);
      var mask := if key.Key? then key.bytes else [Byte(0), Byte(0), Byte(0), Byte(0)];
      r, moved := SendMessage(stream, msg, client, fin, mask);
      assert FrameBytes(fin, opcode, data, key) == Encode(p);
      ok := r != -1;
    case Control(opcode, _, _) =>
      r, moved := SendControl(stream, opcode);
      ok := r > 0;
  }

  /** A whole message sent piece by piece on one end and received on the other. */
  method SendThenReceive(ps: seq<Piece>, client: bool, max: nat) returns (msg: WSFrameMessage?, ghost pongs: nat)
    requires OneMessage(ps) && max <= INT_MAX + 1 && Deliverable(ps, !client, max, 0)
    requires forall i :: 0 <= i < |ps| ==> SentBy(ps[i], client)
    ensures msg != null && msg.opcode == FirstOpcode(ps, 0) && msg.data == Content(ps) && pongs == Pings(ps)
  {
    var sender := new Stream(true, []);
    for k := 0 to |ps|
      invariant sender.connected && sender.tx + EncodeAll(ps[k..]) == EncodeAll(ps)
    {
      FragmentFits(ps, k, !client, max);
      assert ps[k..][0] == ps[k] && ps[k..][1..] == ps[k + 1..];
      Reassociate(sender.tx, Encode(ps[k]), EncodeAll(ps[k + 1..]));
      var ok := SendPiece(sender, ps[k], client);
    }
    assert ps[|ps|..] == [] && sender.tx + [] == sender.tx;
    var receiver := new Stream(true, sender.tx);
    assert receiver.rx + [] == receiver.rx;
    MessageRoundTrip(ps, [], !client, max, 0, [], 0);
    msg, pongs := ReceiveMessage(receiver, !client, max);
    assert [] + Content(ps) == Content(ps);
  }

  /** Each fragment of a message below max is itself below it. */
  lemma {:induction false} FragmentFits(ps: seq<Piece>, k: nat, client: bool, max: nat)
    requires k < |ps| && Deliverable(ps, client, max, 0)
    ensures ps[k].Fragment? ==> 0 < |ps[k].data| < max
    decreases k
  {
    DeliverableCons(ps, client, max, 0);
    if k > 0 {
      assert Deliverable(ps[1..], client, max, 0);
      FragmentFits(ps[1..], k - 1, client, max);
    }
  }
}
