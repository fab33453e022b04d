/**
 * The frame codec of the hand-written WebSocket client (packages/opencode/src/raw-ws-bun.ts):
 * headers, masking and the chunk-independent splitting of a byte stream into frames, after
 * sections 5.2 and 5.3 of RFC 6455.
 */
module Frames {
  import opened Prelude

  type byte = x: nat | x < 256

  /** A masking key: four bytes (RFC 6455 section 5.3). */
  type Mask = m: seq<byte> | |m| == 4 witness [0, 0, 0, 0]

  datatype Frame = Frame(fin: bool, opcode: nat, payload: seq<byte>)

  const CONTINUATION: nat := 0x0
  const TEXT: nat := 0x1
  const BINARY: nat := 0x2
  const CLOSE: nat := 0x8
  const PING: nat := 0x9
  const PONG: nat := 0xa

  // ---------------------------------------------------------------------------
  // Bits
  // ---------------------------------------------------------------------------

  function Xor(a: nat, b: nat): nat
    decreases a + b
  {
    if a == 0 && b == 0 then 0
    else (if a % 2 == b % 2 then 0 else 1) + 2 * Xor(a / 2, b / 2)
  }

  function Pow2(k: nat): nat {
    if k == 0 then 1 else 2 * Pow2(k - 1)
  }

  lemma {:induction false} XorBound(a: nat, b: nat, k: nat)
    requires a < Pow2(k) && b < Pow2(k)
    ensures Xor(a, b) < Pow2(k)
    decreases k
  {
    if k > 0 && a + b > 0 {
      XorBound(a / 2, b / 2, k - 1);
    }
  }

  lemma {:induction false} XorTwice(a: nat, m: nat)
    ensures Xor(Xor(a, m), m) == a
    decreases a + m
  {
    if a + m > 0 {
      var x := Xor(a, m);
      XorTwice(a / 2, m / 2);
      assert x / 2 == Xor(a / 2, m / 2);
      if x == 0 && m == 0 {
        assert Xor(a / 2, 0) == 0;
      }
    }
  }

  function XorByte(a: byte, b: byte): byte {
    assert Pow2(8) == 256 by { assert Pow2(4) == 16; }
    XorBound(a, b, 8);
    Xor(a, b)
  }

  /** Each payload byte combined with the key byte at its position modulo four. */
  function ApplyMask(mask: Mask, payload: seq<byte>): (r: seq<byte>)
    ensures |r| == |payload|
  {
    seq(|payload|, i requires 0 <= i < |payload| => XorByte(payload[i], mask[i % 4]))
  }

  lemma UnmaskMasked(mask: Mask, payload: seq<byte>)
    ensures ApplyMask(mask, ApplyMask(mask, payload)) == payload
  {
    forall i | 0 <= i < |payload| ensures ApplyMask(mask, ApplyMask(mask, payload))[i] == payload[i] {
      XorTwice(payload[i], mask[i % 4]);
    }
  }

  /** Bit `k` of `a`. */
  predicate Bit(a: nat, k: nat)
    decreases k
  {
    if k == 0 then a % 2 == 1 else Bit(a / 2, k - 1)
  }

  lemma {:induction false} XorBits(a: nat, b: nat, k: nat)
    ensures Bit(Xor(a, b), k) <==> Bit(a, k) != Bit(b, k)
    decreases k
  {
    assert Xor(a, b) == (if a % 2 == b % 2 then 0 else 1) + 2 * Xor(a / 2, b / 2);
    if k > 0 {
      XorBits(a / 2, b / 2, k - 1);
    }
  }

  /** Masking (RFC 6455 section 5.3): each octet is combined, bit by bit, with the key octet at `i` modulo four. */
  lemma MaskedBits(mask: Mask, payload: seq<byte>, i: nat, k: nat)
    requires i < |payload|
    ensures Bit(ApplyMask(mask, payload)[i], k) <==> Bit(payload[i], k) != Bit(mask[i % 4], k)
  {
    XorBits(payload[i], mask[i % 4], k);
  }

  // ---------------------------------------------------------------------------
  // Lengths
  // ---------------------------------------------------------------------------

  /** The `n` low bytes of `v`, most significant first. */
  function BigEndian(v: nat, n: nat): (r: seq<byte>)
    ensures |r| == n
  {
    if n == 0 then [] else BigEndian(v / 256, n - 1) + [v % 256]
  }

  function FromBigEndian(bytes: seq<byte>): nat {
    if bytes == [] then 0 else FromBigEndian(bytes[..|bytes| - 1]) * 256 + bytes[|bytes| - 1]
  }

  function Pow256(n: nat): nat {
    if n == 0 then 1 else 256 * Pow256(n - 1)
  }

  lemma {:induction false} BigEndianRoundTrip(v: nat, n: nat)
    requires v < Pow256(n)
    ensures FromBigEndian(BigEndian(v, n)) == v
    decreases n
  {
    if n > 0 {
      BigEndianRoundTrip(v / 256, n - 1);
      var r := BigEndian(v, n);
      assert r[..n - 1] == BigEndian(v / 256, n - 1);
    }
  }

  /** The three length forms of RFC 6455 section 5.2. */
  datatype LengthForm = Short | Medium | Long

  predicate Fits(len: nat, form: LengthForm) {
    match form
    case Short => len < 126
    case Medium => len < 65536
    case Long => len < Pow256(8)
  }

  /** The form `writeFrame` picks: the shortest that fits. */
  function ShortestForm(len: nat): LengthForm {
    if len < 126 then Short else if len < 65536 then Medium else Long
  }

  // ---------------------------------------------------------------------------
  // Encoding
  // ---------------------------------------------------------------------------

  function Header(fin: bool, opcode: nat, masked: bool, len: nat, form: LengthForm): (r: seq<byte>)
    requires opcode < 16 && Fits(len, form)
    ensures |r| == match form case Short => 2 case Medium => 4 case Long => 10
  {
    var first := (if fin then 128 else 0) + opcode;
    var maskBit := if masked then 128 else 0;
    match form
    case Short => [first, maskBit + len]
    case Medium => [first, maskBit + 126] + BigEndian(len, 2)
    case Long => [first, maskBit + 127] + BigEndian(len, 8)
  }

  /** A frame's bytes; `mask` is the client's key, absent on a server's frame. */
  function Encode(f: Frame, mask: Option<Mask>, form: LengthForm): seq<byte>
    requires f.opcode < 16 && Fits(|f.payload|, form)
  {
    Header(f.fin, f.opcode, mask.Some?, |f.payload|, form)
    + (KeyBytes(mask) + WirePayload(mask, f.payload))
  }

  function KeyBytes(mask: Option<Mask>): seq<byte> {
    if mask.Some? then mask.value else []
  }

  function WirePayload(mask: Option<Mask>, payload: seq<byte>): (r: seq<byte>)
    ensures |r| == |payload|
  {
    if mask.Some? then ApplyMask(mask.value, payload) else payload
  }

  // ---------------------------------------------------------------------------
  // Parsing
  // ---------------------------------------------------------------------------

  datatype Parsed = Incomplete | Complete(frame: Frame, size: nat)

  /** The bytes of the header up to, not including, a masking key. */
  function LengthEnd(b1: byte): nat {
    if b1 % 128 == 126 then 4 else if b1 % 128 == 127 then 10 else 2
  }

  function PayloadLength(buf: seq<byte>): nat
    requires |buf| >= 2 && |buf| >= LengthEnd(buf[1])
  {
    if LengthEnd(buf[1]) == 2 then buf[1] % 128 else FromBigEndian(buf[2..LengthEnd(buf[1])])
  }

  /** The frame at the front of `buf`, when all of its bytes have arrived. */
  function ParseFrame(buf: seq<byte>): (r: Parsed)
    ensures r.Complete? ==> 2 <= r.size <= |buf| && |r.frame.payload| < |buf|
  {
    if |buf| < 2 || |buf| < LengthEnd(buf[1]) then Incomplete
    else
      var offset := LengthEnd(buf[1]) + (if buf[1] >= 128 then 4 else 0);
      var end := offset + PayloadLength(buf);
      if |buf| < end then Incomplete
      else Complete(Frame(buf[0] >= 128, buf[0] % 16, buf[offset..end]), end)
  }

  /** Later bytes never change a frame that has arrived. */
  lemma ParseIgnoresLaterBytes(buf: seq<byte>, more: seq<byte>)
    requires ParseFrame(buf).Complete?
    ensures ParseFrame(buf + more) == ParseFrame(buf)
  {
    var e := LengthEnd(buf[1]);
    assert (buf + more)[1] == buf[1];
    assert (buf + more)[2..e] == buf[2..e];
    var offset := e + (if buf[1] >= 128 then 4 else 0);
    var end := ParseFrame(buf).size;
    assert (buf + more)[offset..end] == buf[offset..end];
  }

  lemma HeaderLength(fin: bool, opcode: nat, masked: bool, len: nat, form: LengthForm, rest: seq<byte>)
    requires opcode < 16 && Fits(len, form)
    ensures var h := Header(fin, opcode, masked, len, form);
            && LengthEnd(h[1]) == |h| && PayloadLength(h + rest) == len
            && (h[1] >= 128 <==> masked) && (h[0] >= 128 <==> fin) && h[0] % 16 == opcode
  {
    var h := Header(fin, opcode, masked, len, form);
    match form
    case Short =>
    case Medium =>
      assert Pow256(2) == 65536 by { assert Pow256(1) == 256; }
      BigEndianRoundTrip(len, 2);
      assert (h + rest)[2..4] == BigEndian(len, 2);
    case Long =>
      BigEndianRoundTrip(len, 8);
      assert (h + rest)[2..10] == BigEndian(len, 8);
  }

  /** A header, a key if the header announces one, and a payload of the announced length are one frame. */
  lemma ParseParts(h: seq<byte>, key: seq<byte>, payload: seq<byte>, rest: seq<byte>)
    requires |h| >= 2 && LengthEnd(h[1]) == |h| && |key| == (if h[1] >= 128 then 4 else 0)
    requires PayloadLength(h + (key + payload + rest)) == |payload|
    ensures ParseFrame(h + (key + payload + rest))
         == Complete(Frame(h[0] >= 128, h[0] % 16, payload), |h| + |key| + |payload|)
  {
    var all := h + (key + payload + rest);
    var offset := |h| + |key|;
    assert all[0] == h[0] && all[1] == h[1];
    assert all[offset..offset + |payload|] == payload;
  }

  /**
   * Header parsing inverts encoding for every opcode, key and payload in every length form: it
   * consumes exactly the encoded bytes, whatever follows them, and unmasking the slice with the key
   * in front of it gives the payload.
   */
  lemma ParseEncoded(f: Frame, mask: Option<Mask>, form: LengthForm, rest: seq<byte>)
    requires f.opcode < 16 && Fits(|f.payload|, form)
    ensures var bytes := Encode(f, mask, form);
            var p := ParseFrame(bytes + rest);
            && p.Complete? && p.size == |bytes|
            && p.frame.fin == f.fin && p.frame.opcode == f.opcode
            && (mask.None? ==> p.frame == f)
            && (mask.Some? ==>
                  var key := (bytes + rest)[p.size - |f.payload| - 4..p.size - |f.payload|];
                  && p.frame.payload == ApplyMask(mask.value, f.payload)
                  && |key| == 4 && ApplyMask(key, p.frame.payload) == f.payload)
  {
    var key, payload := KeyBytes(mask), WirePayload(mask, f.payload);
    var h := Header(f.fin, f.opcode, mask.Some?, |f.payload|, form);
    ParseHeaded(f.fin, f.opcode, form, key, payload, rest);
    PartsInOrder(h, key, payload, rest);
    if mask.Some? {
      UnmaskMasked(mask.value, f.payload);
    }
  }

  lemma ParseHeaded(fin: bool, opcode: nat, form: LengthForm, key: seq<byte>, payload: seq<byte>, rest: seq<byte>)
    requires opcode < 16 && Fits(|payload|, form) && (key == [] || |key| == 4)
    ensures var h := Header(fin, opcode, key != [], |payload|, form);
            ParseFrame(h + (key + payload + rest))
            == Complete(Frame(fin, opcode, payload), |h| + |key| + |payload|)
  {
    HeaderLength(fin, opcode, key != [], |payload|, form, key + payload + rest);
    ParseParts(Header(fin, opcode, key != [], |payload|, form), key, payload, rest);
  }

  lemma PartsInOrder(h: seq<byte>, key: seq<byte>, payload: seq<byte>, rest: seq<byte>)
    ensures (h + (key + payload)) + rest == h + (key + payload + rest)
    ensures (h + (key + payload + rest))[|h|..|h| + |key|] == key
  {
  }

  const HELLO: seq<byte> := [0x48, 0x65, 0x6c, 0x6c, 0x6f]

  /** The example frames of RFC 6455 section 5.7: unmasked, in fragments, a ping, masked, and the longer headers. */
  lemma ExampleFrames()
    ensures Encode(Frame(true, TEXT, HELLO), None, Short) == [0x81, 0x05, 0x48, 0x65, 0x6c, 0x6c, 0x6f]
    ensures Encode(Frame(false, TEXT, HELLO[..3]), None, Short) == [0x01, 0x03, 0x48, 0x65, 0x6c]
    ensures Encode(Frame(true, CONTINUATION, HELLO[3..]), None, Short) == [0x80, 0x02, 0x6c, 0x6f]
    ensures Encode(Frame(true, PING, HELLO), None, Short) == [0x89, 0x05, 0x48, 0x65, 0x6c, 0x6c, 0x6f]
  {
    assert HELLO[..3] == [0x48, 0x65, 0x6c] && HELLO[3..] == [0x6c, 0x6f];
  }

  const EXAMPLE_KEY: Mask := [0x37, 0xfa, 0x21, 0x3d]

  lemma ExampleMaskedFrame()
    ensures Encode(Frame(true, TEXT, HELLO), Some(EXAMPLE_KEY), Short)
         == [0x81, 0x85, 0x37, 0xfa, 0x21, 0x3d] + ApplyMask(EXAMPLE_KEY, HELLO)
  {
  }

  lemma ExampleHeaders()
    ensures Header(true, BINARY, false, 256, Medium) == [0x82, 0x7e, 0x01, 0x00]
    ensures Header(true, BINARY, false, 65536, Long) == [0x82, 0x7f, 0, 0, 0, 0, 0, 1, 0, 0]
  {
    assert BigEndian(256, 2) == [1, 0] by { assert BigEndian(1, 1) == [1] by { assert BigEndian(0, 0) == []; } }
    assert BigEndian(0, 5) == [0, 0, 0, 0, 0] by { assert BigEndian(0, 2) == [0, 0]; }
    assert BigEndian(256, 7) == [0, 0, 0, 0, 0, 1, 0] by {
      assert BigEndian(1, 6) == [0, 0, 0, 0, 0, 1];
    }
  }

  // ---------------------------------------------------------------------------
  // Draining a buffer
  // ---------------------------------------------------------------------------

  datatype Drained = Drained(frames: seq<Frame>, rest: seq<byte>)

  /** Every whole frame at the front of `buf`, and the bytes of the unfinished one after them. */
  function Drain(buf: seq<byte>): (d: Drained)
    ensures ParseFrame(d.rest).Incomplete?
    decreases |buf|
  {
    var p := ParseFrame(buf);
    if p.Incomplete? then Drained([], buf)
    else
      var d := Drain(buf[p.size..]);
      Drained([p.frame] + d.frames, d.rest)
  }

  lemma DrainOneFrame(buf: seq<byte>, more: seq<byte>)
    requires ParseFrame(buf).Complete?
    ensures var p := ParseFrame(buf);
            var later := Drain(buf[p.size..] + more);
            Drain(buf + more) == Drained([p.frame] + later.frames, later.rest)
  {
    ParseIgnoresLaterBytes(buf, more);
    assert (buf + more)[ParseFrame(buf).size..] == buf[ParseFrame(buf).size..] + more;
  }

  lemma {:induction false} DrainInTwo(buf: seq<byte>, more: seq<byte>)
    ensures var first := Drain(buf);
            var second := Drain(first.rest + more);
            Drain(buf + more) == Drained(first.frames + second.frames, second.rest)
    decreases |buf|
  {
    var p := ParseFrame(buf);
    if p.Incomplete? {
      assert [] + Drain(buf + more).frames == Drain(buf + more).frames;
    } else {
      DrainOneFrame(buf, more);
      DrainInTwo(buf[p.size..], more);
      var first := Drain(buf[p.size..]);
      var second := Drain(first.rest + more);
      assert [p.frame] + (first.frames + second.frames) == ([p.frame] + first.frames) + second.frames;
    }
  }

  /** The frames found when `chunks` arrive one after the other on top of `rx`. */
  function DrainChunks(rx: seq<byte>, chunks: seq<seq<byte>>): Drained
    decreases |chunks|
  {
    if chunks == [] then Drained([], rx)
    else
      var first := Drain(rx + chunks[0]);
      var later := DrainChunks(first.rest, chunks[1..]);
      Drained(first.frames + later.frames, later.rest)
  }

  /** Any two ways of cutting a stream into chunks give the same frames and the same remainder. */
  lemma {:induction false} ChunkIndependence(rx: seq<byte>, chunks: seq<seq<byte>>)
    requires ParseFrame(rx).Incomplete?
    ensures DrainChunks(rx, chunks) == Drain(rx + Flat(chunks))
    decreases |chunks|
  {
    if chunks == [] {
      assert rx + Flat(chunks) == rx;
    } else {
      var buf, tail := rx + chunks[0], Flat(chunks[1..]);
      FlatFirst(rx, chunks);
      ChunkIndependence(Drain(buf).rest, chunks[1..]);
      DrainInTwo(buf, tail);
    }
  }

  /** A server's encoding of a frame sequence, each frame in a length form of its choice. */
  function EncodeAll(frames: seq<Frame>, forms: seq<LengthForm>): seq<byte>
    requires Encodable(frames, forms)
    decreases |frames|
  {
    if frames == [] then []
    else Encode(frames[0], None, forms[0]) + EncodeAll(frames[1..], forms[1..])
  }

  predicate Encodable(frames: seq<Frame>, forms: seq<LengthForm>) {
    && |frames| == |forms|
    && forall i :: 0 <= i < |frames| ==> frames[i].opcode < 16 && Fits(|frames[i].payload|, forms[i])
  }

  lemma DrainFirst(bytes: seq<byte>, f: Frame, rest: seq<byte>)
    requires ParseFrame(bytes + rest) == Complete(f, |bytes|)
    ensures Drain(bytes + rest) == Drained([f] + Drain(rest).frames, Drain(rest).rest)
  {
    assert (bytes + rest)[|bytes|..] == rest;
  }

  lemma {:induction false} DrainEncoded(frames: seq<Frame>, forms: seq<LengthForm>)
    requires Encodable(frames, forms)
    ensures Drain(EncodeAll(frames, forms)) == Drained(frames, [])
    decreases |frames|
  {
    if frames != [] {
      var bytes := Encode(frames[0], None, forms[0]);
      var rest := EncodeAll(frames[1..], forms[1..]);
      ParseEncoded(frames[0], None, forms[0], rest);
      DrainEncoded(frames[1..], forms[1..]);
      DrainFirst(bytes, frames[0], rest);
      assert [frames[0]] + frames[1..] == frames;
    }
  }
}
