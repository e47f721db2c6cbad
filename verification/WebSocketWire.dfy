/** WebSocket frames byte by byte, as section 5.2 of RFC 6455 lays them out, and what ends the
    receiver without a message. */
module WebSocketWire {
  import opened Bits
  import opened Blocks
  import opened Codecs
  import opened Streams
  import opened WebSockets

  // ---------------------------------------------------------------- the layout

  /** FIN is the top bit of the first byte, then three reserved bits and four of opcode; MASK is
      the top bit of the second, then seven of length. */
  lemma HeadLayout(h: Head)
    requires ValidHead(h)
    ensures var b := HeadBytes(h);
            && b[0].code / 0x80 == (if h.fin then 1 else 0) && b[0].code / 0x10 % 8 == h.rsv
            && b[0].code % 0x10 == h.opcode
            && b[1].code / 0x80 == (if h.mask then 1 else 0) && b[1].code % 0x80 == h.payload
  {
  }

  /** What follows the length: the key and the masked payload, or the payload. */
  function Carried(data: seq<byte>, key: Mask): seq<byte>
    requires ValidMask(key)
  {
    if key.Key? then key.bytes + Masked(data, key.bytes) else data
  }

  function Flag(b: bool): nat { if b then 0x80 else 0 }

  /** A frame written out. */
  function FrameWith(fin: bool, opcode: nat, key: Mask, code: nat, field: seq<byte>, data: seq<byte>): seq<byte>
    requires ValidMask(key) && opcode < 16 && code < 0x80
  {
    [Byte(Flag(fin) + opcode), Byte(Flag(key.Key?) + code)] + (field + Carried(data, key))
  }

  lemma FrameIs(fin: bool, opcode: nat, data: seq<byte>, key: Mask, code: nat, field: seq<byte>)
    requires ValidMask(key) && opcode < 16 && code == LengthCode(|data|) && field == LengthField(|data|)
    ensures FrameBytes(fin, opcode, data, key) == FrameWith(fin, opcode, key, code, field, data)
  {
    HeadIs(fin, opcode, key.Key?, code);
    assert KeyBytes(key) + Payload(data, key) == Carried(data, key);
  }

  lemma HeadIs(fin: bool, opcode: nat, mask: bool, code: nat)
    requires opcode < 16 && code < 0x80
    ensures HeadBytes(Head(fin, 0, opcode, mask, code)) == [Byte(Flag(fin) + opcode), Byte(Flag(mask) + code)]
  {
  }

  /** Up to 125 bytes the length is in the head. */
  lemma ShortFrame(fin: bool, opcode: nat, data: seq<byte>, key: Mask)
    requires ValidMask(key) && opcode < 16 && |data| < 126
    ensures FrameBytes(fin, opcode, data, key) == FrameWith(fin, opcode, key, |data|, [], data)
  {
    FrameIs(fin, opcode, data, key, |data|, []);
  }

  /** Up to 65535 it is 126 and two bytes, and beyond that 127 and eight bytes, most significant
      first. */
  lemma LongFrame(fin: bool, opcode: nat, data: seq<byte>, key: Mask, field: seq<byte>)
    requires ValidMask(key) && opcode < 16 && 126 <= |data| < SIZE_RANGE
    requires |field| == (if |data| < 0x1_0000 then 2 else 8) && NetworkOrder(field) == |data|
    ensures FrameBytes(fin, opcode, data, key) ==
            FrameWith(fin, opcode, key, if |data| < 0x1_0000 then 126 else 127, field, data)
  {
    FieldIs(|data|, field);
    FrameIs(fin, opcode, data, key, if |data| < 0x1_0000 then 126 else 127, field);
  }

  lemma FieldIs(n: nat, field: seq<byte>)
    requires 126 <= n < SIZE_RANGE && |field| == (if n < 0x1_0000 then 2 else 8) && NetworkOrder(field) == n
    ensures field == LengthField(n)
  {
    var own := LengthField(n);
    WordSizes();
    LoadStore(n, |field|, Big);
    EndianOrder(own);
    ModSmall(n, Words(|field|));
    SameNumber(field, own);
  }

  /** A number has one form in network order at each length. */
  lemma {:induction false} SameNumber(a: seq<byte>, b: seq<byte>)
    requires |a| == |b| && NetworkOrder(a) == NetworkOrder(b)
    ensures a == b
  {
    if a != [] {
      var n := |a| - 1;
      assert a[n].code == NetworkOrder(a) % 0x100 && b[n].code == NetworkOrder(b) % 0x100;
      SameNumber(a[..n], b[..n]);
      assert a == a[..n] + [a[n]] && b == b[..n] + [b[n]];
    }
  }

  /** WSPing() and WSPong() send two bytes. */
  lemma ControlFrames()
    ensures WebSockets.Encode(Control(PING, [], Unmasked)) == [Byte(0x89), Byte(0)]
    ensures WebSockets.Encode(Control(PONG, [], Unmasked)) == [Byte(0x8A), Byte(0)]
  {
  }

  /** "Hello" in one unmasked text frame, section 5.7 of RFC 6455. */
  lemma HelloFrame()
    ensures var hello := [Byte(0x48), Byte(0x65), Byte(0x6c), Byte(0x6c), Byte(0x6f)];
            FrameBytes(true, TEXT_FRAME, hello, Unmasked) == [Byte(0x81), Byte(5)] + hello
  {
    var hello := [Byte(0x48), Byte(0x65), Byte(0x6c), Byte(0x6c), Byte(0x6f)];
    ShortFrame(true, TEXT_FRAME, hello, Unmasked);
  }

  // ---------------------------------------------------------------- what is delivered

  /** One final frame: its opcode and payload come back exactly when it is not empty, masked if a
      server reads it, and below the maximum. */
  lemma SingleFrame(opcode: nat, data: seq<byte>, key: Mask, rest: seq<byte>, client: bool, max: nat)
    requires ValidMask(key) && opcode in {TEXT_FRAME, BIN_FRAME} && |data| < SIZE_RANGE && max <= INT_MAX + 1
    ensures var out := Receive(FrameBytes(true, opcode, data, key) + rest, client, max, 0, [], 0);
            if data != [] && (client || key.Key?) && |data| < max
            then out == Message(opcode, data, rest, 0) else !out.Message?
  {
    var p := Fragment(true, opcode, data, key);
    var ps := [p];
    assert Sendable(p) && OneMessage(ps);
    assert ps[1..] == [] && WebSockets.EncodeAll(ps) == WebSockets.Encode(p) + [] == WebSockets.Encode(p);
    assert WebSockets.Encode(p) == FrameBytes(true, opcode, data, key);
    MessageRoundTrip(ps, rest, client, max, 0, [], 0);
    OnePiece(p);
    assert [] + data == data;
  }

  lemma OnePiece(p: Piece)
    requires p.Fragment?
    ensures Content([p]) == p.data && Pings([p]) == 0 && FirstOpcode([p], 0) == p.opcode
  {
    var ps, none: seq<Piece> := [p], [];
    assert ps[1..] == none;
    assert Content(none) == [] && Pings(none) == 0 && FirstOpcode(none, NextOpcode(0, p)) == p.opcode;
    assert p.data + [] == p.data;
  }

  /** The message has the opcode of its first fragment that has one. */
  lemma {:induction false} FirstOpcodeIsFirst(ps: seq<Piece>, k: nat)
    requires k < |ps| && ps[k].Fragment? && ps[k].opcode != CONTINUE
    requires forall i :: 0 <= i < k && ps[i].Fragment? ==> ps[i].opcode == CONTINUE
    ensures FirstOpcode(ps, 0) == ps[k].opcode
  {
    if k > 0 {
      assert ps[1..][k - 1] == ps[k] && forall i :: 0 <= i < k - 1 ==> ps[1..][i] == ps[i + 1];
      FirstOpcodeIsFirst(ps[1..], k - 1);
    } else {
      OpcodeStays(ps[1..], ps[0].opcode);
    }
  }

  lemma {:induction false} OpcodeStays(ps: seq<Piece>, opcode: nat)
    requires opcode != 0
    ensures FirstOpcode(ps, opcode) == opcode
  {
    if ps != [] {
      OpcodeStays(ps[1..], opcode);
    }
  }
}
