/**
 * The WebSocket client after the handshake (packages/opencode/src/raw-ws-bun.ts): what each frame
 * does to the connection, message reassembly (RFC 6455 section 5.4), close codes (section 7.4.1)
 * and the backpressured write queue.
 */
module WebSocketClient {
  import opened Prelude
  import opened Frames
  import opened Arithmetic

  datatype CloseInfo = CloseInfo(code: nat, reason: seq<byte>)

  /** What listeners are given. Text stays as its UTF-8 bytes. */
  datatype Event = MessageEvent(data: seq<byte>) | CloseEvent(info: CloseInfo)

  /** A frame handed to the socket, before masking. */
  datatype Sent = Sent(opcode: nat, mask: Mask, payload: seq<byte>)

  const OPEN: nat := 1
  const CLOSING: nat := 2
  const CLOSED: nat := 3

  /** "socket closed", reported when the peer closed with no code. */
  const NO_CODE: CloseInfo :=
    CloseInfo(1006, [115, 111, 99, 107, 101, 116, 32, 99, 108, 111, 115, 101, 100])

  /** The connection as frames, sends and the TCP close leave it. */
  datatype Core = Core(
    readyState: nat,
    fragOpcode: nat,
    fragChunks: seq<seq<byte>>,
    peerClose: Option<CloseInfo>,
    closeEmitted: bool,
    events: seq<Event>,
    sent: seq<Sent>)

  /** The connection right after the handshake. */
  const OPENED := Core(OPEN, 0, [], None, false, [], [])

  // ---------------------------------------------------------------------------
  // What one frame does
  // ---------------------------------------------------------------------------

  function BigEndianPair(high: nat, low: nat): nat {
    high * 256 + low
  }

  function DecodeClose(payload: seq<byte>): CloseInfo {
    if |payload| >= 2 then CloseInfo(BigEndianPair(payload[0], payload[1]), payload[2..])
    else CloseInfo(1005, [])
  }

  function AfterClose(c: Core, info: CloseInfo): Core {
    if c.closeEmitted then c
    else c.(closeEmitted := true, events := c.events + [CloseEvent(info)])
  }

  /** `masks` is the random source: the key of the n-th frame this client writes. */
  function AfterWrite(masks: nat -> Mask, c: Core, opcode: nat, payload: seq<byte>): Core {
    c.(sent := c.sent + [Sent(opcode, masks(|c.sent|), payload)])
  }

  function AfterFrame(masks: nat -> Mask, c: Core, f: Frame): Core {
    if f.opcode == PING then AfterWrite(masks, c, PONG, f.payload)
    else if f.opcode == PONG then c
    else if f.opcode == CLOSE then
      var info := DecodeClose(f.payload);
      AfterClose(c.(readyState := CLOSED, peerClose := Some(info)), info)
    else
      var opcode := if f.opcode == TEXT || f.opcode == BINARY then f.opcode else c.fragOpcode;
      var chunks :=
        if f.opcode == TEXT || f.opcode == BINARY then [f.payload]
        else if f.opcode == CONTINUATION then c.fragChunks + [f.payload]
        else c.fragChunks;
      if !f.fin then c.(fragOpcode := opcode, fragChunks := chunks)
      else
        c.(fragOpcode := opcode, fragChunks := [],
           events := if opcode == TEXT then c.events + [MessageEvent(Flat(chunks))] else c.events)
  }

  function AfterFrames(masks: nat -> Mask, c: Core, frames: seq<Frame>): Core
    decreases |frames|
  {
    if frames == [] then c else AfterFrames(masks, AfterFrame(masks, c, frames[0]), frames[1..])
  }

  /** The socket reports the TCP connection closed. */
  function AfterTcpClose(c: Core): Core {
    AfterClose(c.(readyState := CLOSED), c.peerClose.GetOr(NO_CODE))
  }

  /** The client sends a text. */
  function AfterSend(masks: nat -> Mask, c: Core, data: seq<byte>): Core {
    if c.readyState == OPEN then AfterWrite(masks, c, TEXT, data) else c
  }

  /** The client closes; ending the socket may run the TCP close callback before it returns. */
  function AfterClientClose(masks: nat -> Mask, c: Core, callbackRunsNow: bool): Core {
    if c.readyState == CLOSED then c
    else
      var closed := AfterWrite(masks, c, CLOSE, [0x03, 0xe8]).(readyState := CLOSED);
      if callbackRunsNow then AfterTcpClose(closed) else closed
  }

  lemma {:induction false} AfterFramesAppend(masks: nat -> Mask, c: Core, a: seq<Frame>, b: seq<Frame>)
    ensures AfterFrames(masks, c, a + b) == AfterFrames(masks, AfterFrames(masks, c, a), b)
    decreases |a|
  {
    if a == [] {
      assert a + b == b;
    } else {
      AfterFramesAppend(masks, AfterFrame(masks, c, a[0]), a[1..], b);
      assert (a + b)[1..] == a[1..] + b;
    }
  }

  lemma AfterOneMore(masks: nat -> Mask, c: Core, frames: seq<Frame>, f: Frame)
    ensures AfterFrames(masks, c, frames + [f]) == AfterFrame(masks, AfterFrames(masks, c, frames), f)
  {
    AfterFramesAppend(masks, c, frames, [f]);
    assert [f][1..] == [];
  }

  /** A chunk on top of the unfinished bytes before it. */
  function Receive(masks: nat -> Mask, at: (Core, seq<byte>), chunk: seq<byte>): (Core, seq<byte>) {
    var d := Drain(at.1 + chunk);
    (AfterFrames(masks, at.0, d.frames), d.rest)
  }

  function ReceiveAll(masks: nat -> Mask, at: (Core, seq<byte>), chunks: seq<seq<byte>>): (Core, seq<byte>)
    decreases |chunks|
  {
    if chunks == [] then at else ReceiveAll(masks, Receive(masks, at, chunks[0]), chunks[1..])
  }

  // ---------------------------------------------------------------------------
  // The code
  // ---------------------------------------------------------------------------

  /** The bytes of one frame this client writes. */
  function WireBytes(s: Sent): seq<byte>
    requires Writable(s)
  {
    Encode(Frame(true, s.opcode, s.payload), Some(s.mask), ShortestForm(|s.payload|))
  }

  /** Control and data opcodes, and payloads shorter than 2^64 bytes. */
  predicate Writable(s: Sent) {
    s.opcode < 16 && |s.payload| < Pow256(8)
  }

  lemma {:induction false} Pow256Positive(i: nat)
    ensures Pow256(i) > 0
  {
    if i > 0 {
      Pow256Positive(i - 1);
    }
  }

  /** `v` without its `i` low bytes. */
  function DropBytes(v: nat, i: nat): nat {
    Pow256Positive(i);
    Divide(v, Pow256(i))
  }

  lemma DropOneByteMore(v: nat, i: nat)
    ensures DropBytes(v, i) / 256 == DropBytes(v, i + 1)
  {
    Pow256Positive(i);
    DivideTwice(v, Pow256(i));
  }

  /** The bytes before the payload key: final frame, masked, in the shortest length form. */
  method FrameHeader(opcode: nat, len: nat) returns (header: seq<byte>)
    requires opcode < 16 && len < Pow256(8)
    ensures header == Header(true, opcode, true, len, ShortestForm(len))
  {
    if len < 126 {
      header := [128 + opcode, 128 + len];
    } else if len < 65536 {
      header := [128 + opcode, 128 + 126, len / 256 % 256, len % 256];
      assert BigEndian(len / 256, 1) == BigEndian(len / 256 / 256, 0) + [len / 256 % 256];
    } else {
      header := [128 + opcode, 128 + 127];
      var i: nat := 8;
      while i > 0
        invariant i <= 8
        invariant header == [128 + opcode, 128 + 127] + BigEndian(DropBytes(len, i), 8 - i)
      {
        i := i - 1;
        DropOneByteMore(len, i);
        header := header + [DropBytes(len, i) % 256];
      }
      assert DropBytes(len, 0) == len;
    }
  }

  method MaskBytes(mask: Mask, payload: seq<byte>) returns (masked: seq<byte>)
    ensures masked == ApplyMask(mask, payload)
  {
    masked := [];
    for i := 0 to |payload|
      invariant masked == ApplyMask(mask, payload)[..i]
    {
      masked := masked + [XorByte(payload[i], mask[i % 4])];
    }
  }

  /** Header, key and masked payload, in this order. */
  method FrameBytes(opcode: nat, mask: Mask, payload: seq<byte>) returns (bytes: seq<byte>)
    requires opcode < 16 && |payload| < Pow256(8)
    ensures bytes == WireBytes(Sent(opcode, mask, payload))
  {
    var header := FrameHeader(opcode, |payload|);
    var masked := MaskBytes(mask, payload);
    bytes := header + mask + masked;
    assert bytes == header + (mask + masked);
  }

  method ConcatAll(parts: seq<seq<byte>>) returns (full: seq<byte>)
    ensures full == Flat(parts)
  {
    full := [];
    for i := 0 to |parts|
      invariant full == Flat(parts[..i])
    {
      FlatOne(parts[..i], parts[i]);
      assert parts[..i + 1] == parts[..i] + [parts[i]];
      full := full + parts[i];
    }
    assert parts[..|parts|] == parts;
  }

  /** The frame at the front of `buf`, header field by header field. */
  method ReadFrame(buf: seq<byte>) returns (p: Parsed)
    ensures p == ParseFrame(buf)
  {
    if |buf| < 2 { return Incomplete; }
    var b0, b1: nat := buf[0], buf[1];
    var masked := b1 >= 128;
    var len: nat := b1 % 128;
    var offset: nat := 2;
    if len == 126 {
      if |buf| < 4 { return Incomplete; }
      len := BigEndianPair(buf[2], buf[3]);
      offset := 4;
      TwoBytes(buf[2..4]);
    } else if len == 127 {
      if |buf| < 10 { return Incomplete; }
      len := ReadEightBytes(buf[2..10]);
      offset := 10;
    }
    if masked { offset := offset + 4; }
    if |buf| < offset + len { return Incomplete; }
    p := Complete(Frame(b0 >= 128, b0 % 16, buf[offset..offset + len]), offset + len);
  }

  lemma TwoBytes(b: seq<byte>)
    requires |b| == 2
    ensures FromBigEndian(b) == BigEndianPair(b[0], b[1])
  {
    assert b[..1] == [b[0]];
    assert FromBigEndian([b[0]]) == b[0] by { assert [b[0]][..0] == []; }
  }

  method ReadEightBytes(b: seq<byte>) returns (len: nat)
    requires |b| == 8
    ensures len == FromBigEndian(b)
  {
    len := 0;
    for i := 0 to 8
      invariant len == FromBigEndian(b[..i])
    {
      assert b[..i + 1][..i] == b[..i];
      len := len * 256 + b[i];
    }
    assert b[..8] == b;
  }

  /** The bytes of everything written, in order. */
  function WireAll(sent: seq<Sent>): seq<byte>
    requires forall i :: 0 <= i < |sent| ==> Writable(sent[i])
  {
    if sent == [] then [] else WireAll(sent[..|sent| - 1]) + WireBytes(sent[|sent| - 1])
  }

  /** `bytes` are those of the frames `sent`, in order. */
  predicate Carries(bytes: seq<byte>, sent: seq<Sent>) {
    (forall i :: 0 <= i < |sent| ==> Writable(sent[i])) && bytes == WireAll(sent)
  }

  lemma CarriesOneMore(bytes: seq<byte>, sent: seq<Sent>, s: Sent)
    requires Carries(bytes, sent) && Writable(s)
    ensures Carries(bytes + WireBytes(s), sent + [s])
  {
    WireOneMore(sent, s);
  }

  lemma WireOneMore(sent: seq<Sent>, s: Sent)
    requires (forall i :: 0 <= i < |sent| ==> Writable(sent[i])) && Writable(s)
    ensures WireAll(sent + [s]) == WireAll(sent) + WireBytes(s)
  {
    assert (sent + [s])[..|sent|] == sent;
  }

  /** A partial write moves bytes from the queue to the socket and loses none. */
  lemma WriteMovesBytes(accepted: seq<byte>, next: seq<byte>, written: nat, rest: seq<seq<byte>>)
    requires written <= |next|
    ensures accepted + Flat([next] + rest) == (accepted + next[..written]) + Flat([next[written..]] + rest)
    ensures written == |next| ==> accepted + Flat([next] + rest) == (accepted + next[..written]) + Flat(rest)
  {
    assert next == next[..written] + next[written..];
    assert ([next] + rest)[1..] == rest;
    assert ([next[written..]] + rest)[1..] == rest;
  }

  /** The drained stream, when `handled` came out of it and `buf` is left. */
  ghost function StillToDrain(handled: seq<Frame>, buf: seq<byte>): Drained {
    Drained(handled + Drain(buf).frames, Drain(buf).rest)
  }

  /** The drain loop has handled `handled` out of `whole` and has `buf` left. */
  ghost predicate Draining(
      masks: nat -> Mask, before: Core, now: Core, handled: seq<Frame>, whole: seq<byte>, buf: seq<byte>)
  {
    now == AfterFrames(masks, before, handled) && Drain(whole) == StillToDrain(handled, buf)
  }

  lemma DrainingStep(
      masks: nat -> Mask, before: Core, now: Core, handled: seq<Frame>, whole: seq<byte>, buf: seq<byte>)
    requires Draining(masks, before, now, handled, whole, buf) && ParseFrame(buf).Complete?
    ensures var p := ParseFrame(buf);
            Draining(masks, before, AfterFrame(masks, now, p.frame), handled + [p.frame], whole, buf[p.size..])
  {
    StillToDrainStep(handled, buf);
    AfterOneMore(masks, before, handled, ParseFrame(buf).frame);
  }

  lemma DrainingEnds(
      masks: nat -> Mask, before: Core, now: Core, handled: seq<Frame>, whole: seq<byte>, buf: seq<byte>)
    requires Draining(masks, before, now, handled, whole, buf) && ParseFrame(buf).Incomplete?
    ensures now == AfterFrames(masks, before, Drain(whole).frames) && buf == Drain(whole).rest
  {
    StillToDrainStep(handled, buf);
  }

  lemma StillToDrainStep(handled: seq<Frame>, buf: seq<byte>)
    ensures var p := ParseFrame(buf);
            StillToDrain(handled, buf) ==
              if p.Incomplete? then Drained(handled, buf) else StillToDrain(handled + [p.frame], buf[p.size..])
  {
    var p := ParseFrame(buf);
    if p.Incomplete? {
      assert handled + [] == handled;
    } else {
      var later := Drain(buf[p.size..]).frames;
      assert handled + ([p.frame] + later) == (handled + [p.frame]) + later;
    }
  }

  /** The close frame goes out, and ending the socket has or has not run the TCP close callback yet. */
  lemma ClosesEitherWay(masks: nat -> Mask, before: Core, after: Core)
    requires before.readyState != CLOSED
    requires var closed := AfterWrite(masks, before.(readyState := CLOSING), CLOSE, [0x03, 0xe8]);
             after == closed.(readyState := CLOSED) || after == AfterTcpClose(closed.(readyState := CLOSED))
    ensures after == AfterClientClose(masks, before, true) || after == AfterClientClose(masks, before, false)
  {
  }

  /** A socket that takes any part of what it is offered, from nothing to all of it. */
  class BunSocket {
    var accepted: seq<byte>

    constructor ()
      ensures accepted == []
    {
      accepted := [];
    }

    method Write(data: seq<byte>) returns (written: nat)
      modifies this
      ensures written <= |data| && accepted == old(accepted) + data[..written]
    {
      written :| written <= |data|;
      accepted := accepted + data[..written];
    }
  }

  class RawWebSocket {
    const masks: nat -> Mask
    var socket: BunSocket?
    var readyState: nat
    var rxBuffer: seq<byte>
    var fragOpcode: nat
    var fragChunks: seq<seq<byte>>
    var peerClose: Option<CloseInfo>
    var closeEmitted: bool
    var writeQueue: seq<seq<byte>>
    /** The events delivered and the frames written so far, in order. */
    var events: seq<Event>
    var sent: seq<Sent>

    ghost function AsCore(): Core
      reads this
    {
      Core(readyState, fragOpcode, fragChunks, peerClose, closeEmitted, events, sent)
    }

    /** The bytes the socket took, then the bytes still queued. */
    ghost function Outgoing(): seq<byte>
      reads this`writeQueue, this`socket, socket
    {
      (if socket == null then [] else socket.accepted) + Flat(writeQueue)
    }

    /** Accepted and queued bytes together are exactly the frames written, in order. */
    ghost predicate Valid()
      reads this`sent, this`writeQueue, this`socket, socket
    {
      Carries(Outgoing(), sent)
    }

    /** An open connection with nothing received or queued. */
    constructor (masks: nat -> Mask)
      ensures Valid() && fresh(socket) && this.masks == masks
      ensures AsCore() == OPENED && rxBuffer == []
    {
      this.masks := masks;
      socket := new BunSocket();
      readyState, rxBuffer, fragOpcode, fragChunks := OPEN, [], 0, [];
      peerClose, closeEmitted, writeQueue, events, sent := None, false, [], [], [];
    }

    method EmitClose(info: CloseInfo)
      modifies this`closeEmitted, this`events
      ensures AsCore() == AfterClose(old(AsCore()), info)
    {
      if closeEmitted { return; }
      closeEmitted := true;
      events := events + [CloseEvent(info)];
    }

    /** The TCP close callback. */
    method OnSocketClose()
      modifies this`readyState, this`closeEmitted, this`events
      ensures AsCore() == AfterTcpClose(old(AsCore()))
    {
      readyState := CLOSED;
      EmitClose(peerClose.GetOr(NO_CODE));
    }

    /** Offers the queue to the socket until it is empty or the socket takes less than it was offered. */
    method FlushWrites()
      modifies this`writeQueue, socket
      ensures Outgoing() == old(Outgoing())
      ensures socket == null ==> writeQueue == old(writeQueue)
      ensures socket != null ==> old(socket.accepted) <= socket.accepted
    {
      if socket == null { return; }
      while |writeQueue| > 0
        invariant socket != null && Outgoing() == old(Outgoing())
        invariant old(socket.accepted) <= socket.accepted
        decreases |writeQueue|
      {
        var next := writeQueue[0];
        ghost var before, rest := socket.accepted, writeQueue[1..];
        var written := socket.Write(next);
        WriteMovesBytes(before, next, written, rest);
        if written < |next| {
          writeQueue := writeQueue[0 := next[written..]];
          assert writeQueue == [next[written..]] + rest;
          return;
        }
        writeQueue := writeQueue[1..];
      }
    }

    method EnqueueWrite(data: seq<byte>)
      modifies this`writeQueue, socket
      ensures Outgoing() == old(Outgoing()) + data
      ensures socket == null ==> writeQueue == old(writeQueue) + [data]
      ensures socket != null ==> old(socket.accepted) <= socket.accepted
    {
      FlatOne(writeQueue, data);
      writeQueue := writeQueue + [data];
      FlushWrites();
    }

    /** One more frame is written. */
    method EnqueueFrame(frame: Sent, bytes: seq<byte>)
      requires Valid() && Writable(frame) && bytes == WireBytes(frame)
      modifies this`sent, this`writeQueue, socket
      ensures Valid() && AsCore() == old(AsCore()).(sent := old(sent) + [frame])
    {
      CarriesOneMore(Outgoing(), sent, frame);
      EnqueueWrite(bytes);
      sent := sent + [frame];
    }

    /** Frames and masks `payload`, and queues the bytes. */
    method WriteFrame(opcode: nat, payload: seq<byte>)
      requires Valid() && opcode < 16 && |payload| < Pow256(8)
      modifies this`sent, this`writeQueue, socket
      ensures Valid() && AsCore() == AfterWrite(masks, old(AsCore()), opcode, payload)
    {
      var mask := masks(|sent|);
      var bytes := FrameBytes(opcode, mask, payload);
      EnqueueFrame(Sent(opcode, mask, payload), bytes);
    }

    method Send(data: seq<byte>)
      requires Valid() && |data| < Pow256(8)
      modifies this`sent, this`writeQueue, socket
      ensures Valid()
      ensures AsCore() == AfterSend(masks, old(AsCore()), data)
    {
      if readyState != OPEN { return; }
      WriteFrame(TEXT, data);
    }

    /**
     * One received frame. Ending the socket may run the TCP close callback before it returns; the
     * outcome is the same either way.
     */
    method HandleFrame(f: Frame)
      requires Valid() && |f.payload| < Pow256(8)
      modifies this`readyState, this`fragOpcode, this`fragChunks, this`peerClose, this`closeEmitted,
               this`events, this`sent, this`writeQueue, socket
      ensures Valid() && AsCore() == AfterFrame(masks, old(AsCore()), f)
    {
      if f.opcode == PING {
        WriteFrame(PONG, f.payload);
        return;
      }
      if f.opcode == PONG { return; }
      if f.opcode == CLOSE {
        HandleCloseFrame(f.payload);
        return;
      }
      HandleDataFrame(f);
    }

    /** The peer's close: recorded before the socket is ended, which may run the TCP close callback. */
    method HandleCloseFrame(payload: seq<byte>)
      modifies this`readyState, this`peerClose, this`closeEmitted, this`events
      ensures var info := DecodeClose(payload);
              AsCore() == AfterClose(old(AsCore()).(readyState := CLOSED, peerClose := Some(info)), info)
    {
      var info := CloseInfo(1005, []);
      if |payload| >= 2 {
        info := CloseInfo(BigEndianPair(payload[0], payload[1]), payload[2..]);
      }
      readyState := CLOSED;
      peerClose := Some(info);
      var callbackRunsNow := *;
      if callbackRunsNow {
        OnSocketClose();
      }
      EmitClose(info);
    }

    method HandleDataFrame(f: Frame)
      requires f.opcode !in {PING, PONG, CLOSE}
      modifies this`fragOpcode, this`fragChunks, this`events
      ensures AsCore() == AfterFrame(masks, old(AsCore()), f)
    {
      if f.opcode == TEXT || f.opcode == BINARY {
        fragOpcode := f.opcode;
        fragChunks := [f.payload];
      } else if f.opcode == CONTINUATION {
        fragChunks := fragChunks + [f.payload];
      }
      if !f.fin { return; }
      var full := ConcatAll(fragChunks);
      fragChunks := [];
      if fragOpcode == TEXT {
        events := events + [MessageEvent(full)];
      }
    }

    /** Takes a whole frame off the buffer and handles it. */
    method TakeFrame(p: Parsed)
      requires Valid() && |rxBuffer| < Pow256(8) && p == ParseFrame(rxBuffer) && p.Complete?
      modifies this, socket
      ensures Valid() && socket == old(socket) && rxBuffer == old(rxBuffer)[p.size..]
      ensures AsCore() == AfterFrame(masks, old(AsCore()), p.frame)
    {
      rxBuffer := rxBuffer[p.size..];
      HandleFrame(p.frame);
    }

    /** Splits the buffer into frames and handles each, until only an unfinished frame is left. */
    method DrainFrames()
      requires Valid() && |rxBuffer| < Pow256(8)
      modifies this, socket
      ensures Valid() && socket == old(socket)
      ensures var d := Drain(old(rxBuffer));
              rxBuffer == d.rest && AsCore() == AfterFrames(masks, old(AsCore()), d.frames)
    {
      ghost var before, handled := AsCore(), [];
      assert [] + Drain(rxBuffer).frames == Drain(rxBuffer).frames;
      while true
        invariant Valid() && socket == old(socket) && |rxBuffer| < Pow256(8)
        invariant Draining(masks, before, AsCore(), handled, old(rxBuffer), rxBuffer)
        decreases |rxBuffer|
      {
        ghost var core := AsCore();
        var buf := rxBuffer;
        var p := ReadFrame(buf);
        if p.Incomplete? {
          DrainingEnds(masks, before, core, handled, old(rxBuffer), buf);
          return;
        }
        TakeFrame(p);
        DrainingStep(masks, before, core, handled, old(rxBuffer), buf);
        handled := handled + [p.frame];
      }
    }

    /** The socket delivered a chunk. */
    method OnData(d: seq<byte>)
      requires Valid() && |rxBuffer| + |d| < Pow256(8)
      modifies this, socket
      ensures Valid() && socket == old(socket)
      ensures (AsCore(), rxBuffer) == Receive(masks, (old(AsCore()), old(rxBuffer)), d)
    {
      rxBuffer := rxBuffer + d;
      DrainFrames();
    }

    /** Ending the socket may run the TCP close callback before it returns. */
    method EndSocket()
      modifies this`readyState, this`closeEmitted, this`events
      ensures var closed := old(AsCore()).(readyState := CLOSED);
              AsCore() == closed || AsCore() == AfterTcpClose(closed)
    {
      var callbackRunsNow := *;
      if callbackRunsNow {
        OnSocketClose();
      }
      readyState := CLOSED;
    }

    /** The close frame with code 1000. */
    method WriteClose()
      requires Valid()
      modifies this`sent, this`writeQueue, socket
      ensures Valid() && AsCore() == AfterWrite(masks, old(AsCore()), CLOSE, [0x03, 0xe8])
    {
      assert 2 < Pow256(8) by { assert Pow256(1) == 256; }
      WriteFrame(CLOSE, [0x03, 0xe8]);
    }

    /** Sends close code 1000 and ends the socket, unless already closed. */
    method Close()
      requires Valid()
      modifies this, socket
      ensures Valid()
      ensures AsCore() == AfterClientClose(masks, old(AsCore()), true)
           || AsCore() == AfterClientClose(masks, old(AsCore()), false)
    {
      if readyState == CLOSED { return; }
      ghost var before := AsCore();
      readyState := CLOSING;
      WriteClose();
      EndSocket();
      ClosesEitherWay(masks, before, AsCore());
    }
  }

  // ---------------------------------------------------------------------------
  // What the peer reads
  // ---------------------------------------------------------------------------

  /** The frame the peer parses out of `s`: final, its payload still masked. */
  function OnWire(s: Sent): Frame {
    Frame(true, s.opcode, ApplyMask(s.mask, s.payload))
  }

  function AllOnWire(sent: seq<Sent>): (r: seq<Frame>)
    ensures |r| == |sent|
  {
    if sent == [] then [] else AllOnWire(sent[..|sent| - 1]) + [OnWire(sent[|sent| - 1])]
  }

  /**
   * However the socket split its writes, the bytes it has taken parse to the first frames written,
   * in order, and once the queue is empty to all of them with nothing left over.
   */
  lemma PeerReadsSent(accepted: seq<byte>, queued: seq<byte>, sent: seq<Sent>)
    requires forall i :: 0 <= i < |sent| ==> Writable(sent[i])
    requires accepted + queued == WireAll(sent)
    ensures Drain(accepted).frames <= AllOnWire(sent)
    ensures queued == [] ==> Drain(accepted) == Drained(AllOnWire(sent), [])
  {
    DrainWireAll(sent);
    DrainInTwo(accepted, queued);
    if queued == [] {
      assert accepted == WireAll(sent);
    }
  }

  lemma DrainOneSent(s: Sent)
    requires Writable(s)
    ensures Drain(WireBytes(s)) == Drained([OnWire(s)], [])
  {
    var bytes := WireBytes(s);
    ParseEncoded(Frame(true, s.opcode, s.payload), Some(s.mask), ShortestForm(|s.payload|), []);
    assert bytes + [] == bytes;
    assert ParseFrame(bytes) == Complete(OnWire(s), |bytes|);
    assert bytes[|bytes|..] == [];
  }

  lemma DrainOneMoreSent(before: seq<byte>, frames: seq<Frame>, s: Sent)
    requires Writable(s) && Drain(before) == Drained(frames, [])
    ensures Drain(before + WireBytes(s)) == Drained(frames + [OnWire(s)], [])
  {
    DrainInTwo(before, WireBytes(s));
    DrainOneSent(s);
    assert [] + WireBytes(s) == WireBytes(s);
  }

  lemma {:induction false} DrainWireAll(sent: seq<Sent>)
    requires forall i :: 0 <= i < |sent| ==> Writable(sent[i])
    ensures Drain(WireAll(sent)) == Drained(AllOnWire(sent), [])
  {
    if sent != [] {
      var earlier, last := sent[..|sent| - 1], sent[|sent| - 1];
      DrainWireAll(earlier);
      DrainOneMoreSent(WireAll(earlier), AllOnWire(earlier), last);
    }
  }

  /** The close frame this client sends carries code 1000. */
  lemma CloseSendsNormalClosure(masks: nat -> Mask, c: Core)
    ensures var sent := AfterWrite(masks, c, CLOSE, [0x03, 0xe8]).sent;
            DecodeClose(sent[|c.sent|].payload).code == 1000
  {
  }

  // ---------------------------------------------------------------------------
  // One close event, with the first reported code
  // ---------------------------------------------------------------------------

  /** `callbackRunsNow` says whether ending the socket runs the TCP close callback before it returns. */
  datatype Step = Received(frame: Frame) | TcpClose | ClientSends(data: seq<byte>) | ClientCloses(callbackRunsNow: bool)

  function AfterStep(masks: nat -> Mask, c: Core, step: Step): Core {
    match step
    case Received(f) => AfterFrame(masks, c, f)
    case TcpClose => AfterTcpClose(c)
    case ClientSends(data) => AfterSend(masks, c, data)
    case ClientCloses(callbackRunsNow) => AfterClientClose(masks, c, callbackRunsNow)
  }

  function AfterSteps(masks: nat -> Mask, c: Core, steps: seq<Step>): Core
    decreases |steps|
  {
    if steps == [] then c else AfterSteps(masks, AfterStep(masks, c, steps[0]), steps[1..])
  }

  /**
   * The close a step reports, when none was reported before. The client closing only brings on a TCP
   * close, at once or later, and closing again does nothing.
   */
  function StepClose(step: Step, closed: bool): Option<CloseInfo> {
    match step
    case Received(f) => if f.opcode == CLOSE then Some(DecodeClose(f.payload)) else None
    case TcpClose => Some(NO_CODE)
    case ClientSends(_) => None
    case ClientCloses(callbackRunsNow) => if callbackRunsNow && !closed then Some(NO_CODE) else None
  }

  /** The close listeners should hear of: the first close frame or bare TCP close. */
  function FirstClose(steps: seq<Step>, closed: bool): Option<CloseInfo>
    decreases |steps|
  {
    if steps == [] then None
    else if StepClose(steps[0], closed).Some? then StepClose(steps[0], closed)
    else FirstClose(steps[1..], closed || steps[0].ClientCloses?)
  }

  function CloseEvents(events: seq<Event>): seq<CloseInfo> {
    if events == [] then []
    else
      var last := events[|events| - 1];
      CloseEvents(events[..|events| - 1]) + (if last.CloseEvent? then [last.info] else [])
  }

  lemma CloseEventsOneMore(events: seq<Event>, e: Event)
    ensures CloseEvents(events + [e]) == CloseEvents(events) + if e.CloseEvent? then [e.info] else []
  {
    assert (events + [e])[..|events|] == events;
  }

  /** Whether or not a close was reported, the events agree with the flag. */
  predicate CloseReportedOnce(c: Core) {
    && |CloseEvents(c.events)| == (if c.closeEmitted then 1 else 0)
    && (c.peerClose.Some? ==> c.closeEmitted)
  }

  lemma ClosingReports(c: Core, info: CloseInfo)
    requires |CloseEvents(c.events)| == if c.closeEmitted then 1 else 0
    ensures CloseEvents(AfterClose(c, info).events) == if c.closeEmitted then CloseEvents(c.events) else [info]
  {
    CloseEventsOneMore(c.events, CloseEvent(info));
  }

  lemma StepReportsFirstClose(masks: nat -> Mask, c: Core, step: Step)
    requires CloseReportedOnce(c)
    ensures var c' := AfterStep(masks, c, step);
            var reported := StepClose(step, c.readyState == CLOSED);
            && CloseReportedOnce(c')
            && CloseEvents(c'.events) ==
                 (if c.closeEmitted || reported.None? then CloseEvents(c.events) else [reported.value])
            && (!c'.closeEmitted ==> (c'.readyState == CLOSED <==> c.readyState == CLOSED || step.ClientCloses?))
  {
    match step
    case TcpClose => ClosingReports(c.(readyState := CLOSED), c.peerClose.GetOr(NO_CODE));
    case ClientSends(_) =>
    case ClientCloses(_) =>
      var closed := AfterWrite(masks, c, CLOSE, [0x03, 0xe8]).(readyState := CLOSED);
      ClosingReports(closed, closed.peerClose.GetOr(NO_CODE));
    case Received(f) =>
      if f.opcode == CLOSE {
        var info := DecodeClose(f.payload);
        ClosingReports(c.(readyState := CLOSED, peerClose := Some(info)), info);
      } else {
        OtherFramesReportNoClose(masks, c, f);
      }
  }

  lemma OtherFramesReportNoClose(masks: nat -> Mask, c: Core, f: Frame)
    requires f.opcode != CLOSE
    ensures var c' := AfterFrame(masks, c, f);
            && CloseEvents(c'.events) == CloseEvents(c.events)
            && c'.closeEmitted == c.closeEmitted && c'.peerClose == c.peerClose
  {
    var c' := AfterFrame(masks, c, f);
    if c'.events != c.events {
      var e := c'.events[|c'.events| - 1];
      assert c'.events == c.events + [e];
      CloseEventsOneMore(c.events, e);
    }
  }

  /**
   * Over every run of frames, TCP closes, sends and closes by the client, listeners hear exactly one
   * close event if anything closed the connection and none otherwise, and it carries the first close's
   * own code: the peer's when its close frame came first, 1006 only for a bare TCP close.
   */
  lemma {:induction false} OneCloseEvent(masks: nat -> Mask, c: Core, steps: seq<Step>)
    requires CloseReportedOnce(c)
    ensures var c' := AfterSteps(masks, c, steps);
            && CloseReportedOnce(c')
            && CloseEvents(c'.events) ==
                 if c.closeEmitted || FirstClose(steps, c.readyState == CLOSED).None? then CloseEvents(c.events)
                 else [FirstClose(steps, c.readyState == CLOSED).value]
    decreases |steps|
  {
    if steps != [] {
      StepReportsFirstClose(masks, c, steps[0]);
      OneCloseEvent(masks, AfterStep(masks, c, steps[0]), steps[1..]);
    }
  }

  // ---------------------------------------------------------------------------
  // Reassembly
  // ---------------------------------------------------------------------------

  datatype Control = Ping(payload: seq<byte>) | Pong(payload: seq<byte>)

  /** A continuation fragment, and the control frames the sender put in front of it. */
  datatype Fragment = Fragment(before: seq<Control>, payload: seq<byte>)

  /** A data message as a sender fragments it (RFC 6455 section 5.4). */
  datatype Message = Message(before: seq<Control>, text: bool, first: seq<byte>, rest: seq<Fragment>)

  function ControlFrames(controls: seq<Control>): seq<Frame> {
    seq(|controls|, i requires 0 <= i < |controls| =>
      Frame(true, if controls[i].Ping? then PING else PONG, controls[i].payload))
  }

  function FragmentFrames(rest: seq<Fragment>): seq<Frame>
    decreases |rest|
  {
    if rest == [] then []
    else
      ControlFrames(rest[0].before) + [Frame(|rest| == 1, CONTINUATION, rest[0].payload)]
      + FragmentFrames(rest[1..])
  }

  function MessageFrames(m: Message): seq<Frame> {
    ControlFrames(m.before) + [Frame(m.rest == [], if m.text then TEXT else BINARY, m.first)]
    + FragmentFrames(m.rest)
  }

  function StreamFrames(messages: seq<Message>): seq<Frame>
    decreases |messages|
  {
    if messages == [] then [] else MessageFrames(messages[0]) + StreamFrames(messages[1..])
  }

  function Payloads(rest: seq<Fragment>): seq<seq<byte>> {
    seq(|rest|, i requires 0 <= i < |rest| => rest[i].payload)
  }

  /** The whole payload: the concatenation of the fragments. */
  function Data(m: Message): seq<byte> {
    m.first + Flat(Payloads(m.rest))
  }

  /** The events a receiver owes: one per text message, in order. */
  function Owed(messages: seq<Message>): seq<Event>
    decreases |messages|
  {
    if messages == [] then []
    else (if messages[0].text then [MessageEvent(Data(messages[0]))] else []) + Owed(messages[1..])
  }

  /** The pongs a receiver owes: one per ping, with its payload. */
  function PingPayloads(controls: seq<Control>): seq<seq<byte>>
    decreases |controls|
  {
    if controls == [] then []
    else (if controls[0].Ping? then [controls[0].payload] else []) + PingPayloads(controls[1..])
  }

  function FragmentPings(rest: seq<Fragment>): seq<seq<byte>>
    decreases |rest|
  {
    if rest == [] then [] else PingPayloads(rest[0].before) + FragmentPings(rest[1..])
  }

  function MessagePings(m: Message): seq<seq<byte>> {
    PingPayloads(m.before) + FragmentPings(m.rest)
  }

  function StreamPings(messages: seq<Message>): seq<seq<byte>>
    decreases |messages|
  {
    if messages == [] then [] else MessagePings(messages[0]) + StreamPings(messages[1..])
  }

  /** Nothing was written since but one pong for each of `payloads`, in order. */
  predicate AnswersWith(before: seq<Sent>, after: seq<Sent>, payloads: seq<seq<byte>>) {
    && |after| == |before| + |payloads| && before <= after
    && forall i :: 0 <= i < |payloads| ==> IsPong(after[|before| + i], payloads[i])
  }

  predicate IsPong(s: Sent, payload: seq<byte>) {
    s.opcode == PONG && s.payload == payload
  }

  lemma AnswersAdd(a: seq<Sent>, b: seq<Sent>, c: seq<Sent>, first: seq<seq<byte>>, later: seq<seq<byte>>)
    requires AnswersWith(a, b, first) && AnswersWith(b, c, later)
    ensures AnswersWith(a, c, first + later)
  {
    forall i | 0 <= i < |first + later| ensures IsPong(c[|a| + i], (first + later)[i]) {
      if i < |first| {
        assert c[|a| + i] == b[|a| + i];
        assert IsPong(b[|a| + i], first[i]);
      } else {
        assert IsPong(c[|b| + (i - |first|)], later[i - |first|]);
      }
    }
  }

  /** Control frames answer pings with their payloads and touch nothing else. */
  lemma {:induction false} ControlsOnlyAnswer(masks: nat -> Mask, c: Core, controls: seq<Control>)
    ensures var c' := AfterFrames(masks, c, ControlFrames(controls));
            && c' == c.(sent := c'.sent)
            && AnswersWith(c.sent, c'.sent, PingPayloads(controls))
    decreases |controls|
  {
    if controls != [] {
      var frames := ControlFrames(controls);
      var next := AfterFrame(masks, c, frames[0]);
      assert frames[1..] == ControlFrames(controls[1..]);
      ControlsOnlyAnswer(masks, next, controls[1..]);
      var now := if controls[0].Ping? then [controls[0].payload] else [];
      assert AnswersWith(c.sent, next.sent, now);
      AnswersAdd(c.sent, next.sent, AfterFrames(masks, c, frames).sent, now, PingPayloads(controls[1..]));
    }
  }

  /** Continuations collect behind the fragments already there; the final one delivers them. */
  lemma {:induction false} FragmentsCollect(masks: nat -> Mask, c: Core, rest: seq<Fragment>)
    requires rest != []
    ensures var c' := AfterFrames(masks, c, FragmentFrames(rest));
            && c' == c.(fragChunks := [], sent := c'.sent, events := c'.events)
            && c'.events == c.events +
                 if c.fragOpcode == TEXT then [MessageEvent(Flat(c.fragChunks + Payloads(rest)))] else []
    decreases |rest|
  {
    var controls := ControlFrames(rest[0].before);
    var last := Frame(|rest| == 1, CONTINUATION, rest[0].payload);
    var c1 := AfterFrames(masks, c, controls);
    ControlsOnlyAnswer(masks, c, rest[0].before);
    AfterFramesAppend(masks, c, controls + [last], FragmentFrames(rest[1..]));
    AfterOneMore(masks, c, controls, last);
    var c2 := AfterFrame(masks, c1, last);
    assert Payloads(rest) == [rest[0].payload] + Payloads(rest[1..]);
    if |rest| == 1 {
      assert FragmentFrames(rest[1..]) == [];
      assert c.fragChunks + Payloads(rest) == c.fragChunks + [rest[0].payload];
    } else {
      FragmentsCollect(masks, c2, rest[1..]);
      assert c.fragChunks + Payloads(rest) == c2.fragChunks + Payloads(rest[1..]);
    }
  }

  /** And the control frames between them are answered. */
  lemma {:induction false} FragmentsAnswer(masks: nat -> Mask, c: Core, rest: seq<Fragment>)
    ensures AnswersWith(c.sent, AfterFrames(masks, c, FragmentFrames(rest)).sent, FragmentPings(rest))
    decreases |rest|
  {
    if rest != [] {
      var controls := ControlFrames(rest[0].before);
      var last := Frame(|rest| == 1, CONTINUATION, rest[0].payload);
      ControlsOnlyAnswer(masks, c, rest[0].before);
      AfterFramesAppend(masks, c, controls + [last], FragmentFrames(rest[1..]));
      AfterOneMore(masks, c, controls, last);
      var c2 := AfterFrame(masks, AfterFrames(masks, c, controls), last);
      FragmentsAnswer(masks, c2, rest[1..]);
      AnswersAdd(c.sent, c2.sent, AfterFrames(masks, c2, FragmentFrames(rest[1..])).sent,
                 PingPayloads(rest[0].before), FragmentPings(rest[1..]));
    }
  }

  /** One message, however fragmented and interleaved with control frames, is one event or none. */
  lemma MessageReassembled(masks: nat -> Mask, c: Core, m: Message)
    ensures var c' := AfterFrames(masks, c, MessageFrames(m));
            && c'.fragChunks == [] && c'.readyState == c.readyState
            && c'.peerClose == c.peerClose && c'.closeEmitted == c.closeEmitted
            && AnswersWith(c.sent, c'.sent, MessagePings(m))
            && c'.events == c.events + if m.text then [MessageEvent(Data(m))] else []
  {
    var controls := ControlFrames(m.before);
    var first := Frame(m.rest == [], if m.text then TEXT else BINARY, m.first);
    ControlsOnlyAnswer(masks, c, m.before);
    AfterFramesAppend(masks, c, controls + [first], FragmentFrames(m.rest));
    AfterOneMore(masks, c, controls, first);
    var c1 := AfterFrame(masks, AfterFrames(masks, c, controls), first);
    FragmentsAnswer(masks, c1, m.rest);
    AnswersAdd(c.sent, c1.sent, AfterFrames(masks, c1, FragmentFrames(m.rest)).sent,
               PingPayloads(m.before), FragmentPings(m.rest));
    if m.rest == [] {
      assert Flat([m.first]) == m.first + Flat([m.first][1..]);
    } else {
      FragmentsCollect(masks, c1, m.rest);
      assert ([m.first] + Payloads(m.rest))[1..] == Payloads(m.rest);
    }
  }

  lemma {:induction false} StreamReassembled(masks: nat -> Mask, c: Core, messages: seq<Message>)
    ensures var c' := AfterFrames(masks, c, StreamFrames(messages));
            c'.events == c.events + Owed(messages) && AnswersWith(c.sent, c'.sent, StreamPings(messages))
    decreases |messages|
  {
    if messages != [] {
      AfterFramesAppend(masks, c, MessageFrames(messages[0]), StreamFrames(messages[1..]));
      MessageReassembled(masks, c, messages[0]);
      var c1 := AfterFrames(masks, c, MessageFrames(messages[0]));
      StreamReassembled(masks, c1, messages[1..]);
      AnswersAdd(c.sent, c1.sent, AfterFrames(masks, c1, StreamFrames(messages[1..])).sent,
                 MessagePings(messages[0]), StreamPings(messages[1..]));
    }
  }

  lemma FirstThenRest(masks: nat -> Mask, c: Core, buf: seq<byte>, tail: seq<byte>)
    ensures var first, whole := Drain(buf), Drain(buf + tail);
            var rest := Drain(first.rest + tail);
            && AfterFrames(masks, c, whole.frames)
               == AfterFrames(masks, AfterFrames(masks, c, first.frames), rest.frames)
            && whole.rest == rest.rest
  {
    DrainInTwo(buf, tail);
    AfterFramesAppend(masks, c, Drain(buf).frames, Drain(Drain(buf).rest + tail).frames);
  }

  lemma {:induction false} ReceiveAllDrains(masks: nat -> Mask, c: Core, rx: seq<byte>, chunks: seq<seq<byte>>)
    requires ParseFrame(rx).Incomplete?
    ensures var d := Drain(rx + Flat(chunks));
            ReceiveAll(masks, (c, rx), chunks) == (AfterFrames(masks, c, d.frames), d.rest)
    decreases |chunks|
  {
    if chunks == [] {
      assert rx + Flat(chunks) == rx;
    } else {
      var buf, tail := rx + chunks[0], Flat(chunks[1..]);
      var first := Drain(buf);
      FlatFirst(rx, chunks);
      FirstThenRest(masks, c, buf, tail);
      ReceiveAllDrains(masks, AfterFrames(masks, c, first.frames), first.rest, chunks[1..]);
    }
  }

  /**
   * End to end: a server encodes any messages, fragmented and interleaved with pings and pongs as it
   * likes, each frame in any length form that fits, and the bytes arrive cut anywhere. Listeners get
   * exactly the text messages, whole and in order, the server gets exactly one pong for each ping, with
   * its payload and in order, and no byte is left over.
   */
  lemma StreamArrives(masks: nat -> Mask, messages: seq<Message>, forms: seq<LengthForm>, chunks: seq<seq<byte>>)
    requires Encodable(StreamFrames(messages), forms)
    requires Flat(chunks) == EncodeAll(StreamFrames(messages), forms)
    ensures var (c, rx) := ReceiveAll(masks, (OPENED, []), chunks);
            c.events == Owed(messages) && AnswersWith([], c.sent, StreamPings(messages)) && rx == []
  {
    ReceiveAllDrains(masks, OPENED, [], chunks);
    assert [] + Flat(chunks) == Flat(chunks);
    DrainEncoded(StreamFrames(messages), forms);
    StreamReassembled(masks, OPENED, messages);
  }

  // ---------------------------------------------------------------------------
  // What reaches the peer
  // ---------------------------------------------------------------------------

  /** A frame as its reader understands it. */
  datatype Written = Written(opcode: nat, payload: seq<byte>)

  function Contents(sent: seq<Sent>): (r: seq<Written>)
    ensures |r| == |sent|
  {
    if sent == [] then []
    else Contents(sent[..|sent| - 1]) + [Written(sent[|sent| - 1].opcode, sent[|sent| - 1].payload)]
  }

  /** A close frame, a TCP close or the client's own close ends the connection, and nothing else does. */
  predicate StaysOpen(step: Step) {
    match step
    case Received(f) => f.opcode != CLOSE
    case TcpClose => false
    case ClientSends(_) => true
    case ClientCloses(_) => false
  }

  function OpenAfter(steps: seq<Step>, open: bool): bool
    decreases |steps|
  {
    if steps == [] then open else OpenAfter(steps[1..], open && StaysOpen(steps[0]))
  }

  /** What the peer is owed for one step: a pong for its ping, the text, or the close with code 1000. */
  function OwedFor(step: Step, open: bool): seq<Written> {
    match step
    case Received(f) => if f.opcode == PING then [Written(PONG, f.payload)] else []
    case TcpClose => []
    case ClientSends(data) => if open then [Written(TEXT, data)] else []
    case ClientCloses(_) => if open then [Written(CLOSE, [1000 / 256, 1000 % 256])] else []
  }

  function OwedToPeer(steps: seq<Step>, open: bool): seq<Written>
    decreases |steps|
  {
    if steps == [] then []
    else OwedFor(steps[0], open) + OwedToPeer(steps[1..], open && StaysOpen(steps[0]))
  }

  /** The data of the sends made while the connection is open. */
  function SendsWhileOpen(steps: seq<Step>, open: bool): seq<seq<byte>>
    decreases |steps|
  {
    if steps == [] then []
    else
      (if steps[0].ClientSends? && open then [steps[0].data] else [])
      + SendsWhileOpen(steps[1..], open && StaysOpen(steps[0]))
  }

  function Texts(written: seq<Written>): seq<seq<byte>> {
    if written == [] then []
    else (if written[0].opcode == TEXT then [written[0].payload] else []) + Texts(written[1..])
  }

  lemma {:induction false} TextsAppend(a: seq<Written>, b: seq<Written>)
    ensures Texts(a + b) == Texts(a) + Texts(b)
    decreases |a|
  {
    if a == [] {
      assert a + b == b;
    } else {
      TextsAppend(a[1..], b);
      assert (a + b)[1..] == a[1..] + b;
    }
  }

  lemma {:induction false} TextsOwed(steps: seq<Step>, open: bool)
    ensures Texts(OwedToPeer(steps, open)) == SendsWhileOpen(steps, open)
    decreases |steps|
  {
    if steps != [] {
      var first, later := OwedFor(steps[0], open), open && StaysOpen(steps[0]);
      TextsOwed(steps[1..], later);
      TextsAppend(first, OwedToPeer(steps[1..], later));
      assert first != [] ==> first == [first[0]] && first[1..] == [];
    }
  }

  /** Between the steps of a run the connection is open or closed. */
  predicate Settled(c: Core, open: bool) {
    c.readyState == if open then OPEN else CLOSED
  }

  lemma StepWritesOwed(masks: nat -> Mask, c: Core, step: Step, open: bool)
    requires Settled(c, open)
    ensures var t := AfterStep(masks, c, step);
            && Settled(t, open && StaysOpen(step))
            && Contents(t.sent) == Contents(c.sent) + OwedFor(step, open)
            && (t.sent == c.sent || (|t.sent| == |c.sent| + 1 && t.sent[|c.sent|].mask == masks(|c.sent|)))
  {
    var t := AfterStep(masks, c, step);
    assert t.sent != c.sent ==> t.sent[..|t.sent| - 1] == c.sent;
  }

  lemma Regroup<T>(a: seq<T>, b: seq<T>, c: seq<T>)
    ensures a + (b + c) == (a + b) + c
  {
  }

  /** Over every run the frames written are the ones owed, in order, and nothing else is written. */
  lemma {:induction false} WritesWhatIsOwed(masks: nat -> Mask, c: Core, steps: seq<Step>, open: bool)
    requires Settled(c, open)
    ensures var end := AfterSteps(masks, c, steps);
            && Contents(end.sent) == Contents(c.sent) + OwedToPeer(steps, open)
            && Settled(end, OpenAfter(steps, open))
    decreases |steps|
  {
    if steps == [] {
      assert Contents(c.sent) + [] == Contents(c.sent);
    } else {
      var first, rest := steps[0], steps[1..];
      var stays := open && StaysOpen(first);
      var t := AfterStep(masks, c, first);
      StepWritesOwed(masks, c, first, open);
      WritesWhatIsOwed(masks, t, rest, stays);
      Regroup(Contents(c.sent), OwedFor(first, open), OwedToPeer(rest, stays));
      OneStepFirst(masks, c, steps, open);
    }
  }

  /** The run-level functions, one step at a time. */
  lemma OneStepFirst(masks: nat -> Mask, c: Core, steps: seq<Step>, open: bool)
    requires steps != []
    ensures var stays := open && StaysOpen(steps[0]);
            && AfterSteps(masks, c, steps) == AfterSteps(masks, AfterStep(masks, c, steps[0]), steps[1..])
            && OwedToPeer(steps, open) == OwedFor(steps[0], open) + OwedToPeer(steps[1..], stays)
            && OpenAfter(steps, open) == OpenAfter(steps[1..], stays)
  {
  }

  /** The peer's side: whole masked frames, unmasked with the key in front of the payload, and the bytes left. */
  datatype PeerView = PeerView(frames: seq<Written>, rest: seq<byte>)

  /** A server refuses a frame that is not masked (RFC 6455 section 5.1). */
  predicate Readable(buf: seq<byte>) {
    ParseFrame(buf).Complete? && buf[1] >= 128
  }

  function ReadOne(buf: seq<byte>): Written
    requires Readable(buf)
  {
    var p := ParseFrame(buf);
    var start := p.size - |p.frame.payload|;
    Written(p.frame.opcode, ApplyMask(buf[start - 4..start], p.frame.payload))
  }

  function PeerDrain(buf: seq<byte>): PeerView
    decreases |buf|
  {
    if !Readable(buf) then PeerView([], buf)
    else
      var later := PeerDrain(buf[ParseFrame(buf).size..]);
      PeerView([ReadOne(buf)] + later.frames, later.rest)
  }

  lemma PeerSeesOne(s: Sent, rest: seq<byte>)
    requires Writable(s)
    ensures var buf := WireBytes(s) + rest;
            Readable(buf) && ReadOne(buf) == Written(s.opcode, s.payload) && ParseFrame(buf).size == |WireBytes(s)|
  {
    var bytes := WireBytes(s);
    ParseEncoded(Frame(true, s.opcode, s.payload), Some(s.mask), ShortestForm(|s.payload|), rest);
    assert (bytes + rest)[1] == Header(true, s.opcode, true, |s.payload|, ShortestForm(|s.payload|))[1];
  }

  lemma PeerReadsOne(s: Sent, rest: seq<byte>)
    requires Writable(s)
    ensures var buf, later := WireBytes(s) + rest, PeerDrain(rest);
            PeerDrain(buf) == PeerView([Written(s.opcode, s.payload)] + later.frames, later.rest)
  {
    PeerSeesOne(s, rest);
    assert (WireBytes(s) + rest)[|WireBytes(s)|..] == rest;
  }

  lemma {:induction false} PeerReadsAll(sent: seq<Sent>, rest: seq<byte>)
    requires forall i :: 0 <= i < |sent| ==> Writable(sent[i])
    ensures PeerDrain(WireAll(sent) + rest) == PeerView(Contents(sent) + PeerDrain(rest).frames, PeerDrain(rest).rest)
    decreases |sent|
  {
    if sent == [] {
      assert [] + rest == rest;
      assert [] + PeerDrain(rest).frames == PeerDrain(rest).frames;
    } else {
      var init, last := sent[..|sent| - 1], sent[|sent| - 1];
      PeerReadsAll(init, WireBytes(last) + rest);
      PeerReadsOne(last, rest);
      Regroup(WireAll(init), WireBytes(last), rest);
      Regroup(Contents(init), [Written(last.opcode, last.payload)], PeerDrain(rest).frames);
    }
  }

  /** What the peer has read does not change when more bytes arrive. */
  lemma {:induction false} PeerReadsOn(buf: seq<byte>, more: seq<byte>)
    ensures PeerDrain(buf).frames <= PeerDrain(buf + more).frames
    decreases |buf|
  {
    if Readable(buf) {
      var p := ParseFrame(buf);
      ParseIgnoresLaterBytes(buf, more);
      assert (buf + more)[1] == buf[1];
      assert (buf + more)[p.size..] == buf[p.size..] + more;
      var start := p.size - |p.frame.payload|;
      assert (buf + more)[start - 4..start] == buf[start - 4..start];
      PeerReadsOn(buf[p.size..], more);
    }
  }

  lemma PeerReadsWritten(accepted: seq<byte>, queued: seq<byte>, sent: seq<Sent>)
    requires forall i :: 0 <= i < |sent| ==> Writable(sent[i])
    requires accepted + queued == WireAll(sent)
    ensures PeerDrain(accepted).frames <= Contents(sent)
    ensures queued == [] ==> PeerDrain(accepted) == PeerView(Contents(sent), [])
  {
    PeerReadsAll(sent, []);
    assert PeerDrain([]) == PeerView([], []);
    assert WireAll(sent) + [] == WireAll(sent) && Contents(sent) + [] == Contents(sent);
    PeerReadsOn(accepted, queued);
    assert queued == [] ==> accepted == WireAll(sent);
  }

  /**
   * End to end, outgoing: over every run of received frames, TCP closes, sends and closes, and however the
   * socket split its writes, the peer has at every moment read, unmasked and in order, the first of what it is
   * owed, and once the queue is empty all of it with no byte left over: its texts are exactly the data of the
   * sends made while the connection was open.
   */
  lemma PeerReadsTheTexts(masks: nat -> Mask, steps: seq<Step>, accepted: seq<byte>, queued: seq<byte>)
    requires forall i :: 0 <= i < |AfterSteps(masks, OPENED, steps).sent| ==>
      Writable(AfterSteps(masks, OPENED, steps).sent[i])
    requires accepted + queued == WireAll(AfterSteps(masks, OPENED, steps).sent)
    ensures PeerDrain(accepted).frames <= OwedToPeer(steps, true)
    ensures queued == [] ==>
      && PeerDrain(accepted) == PeerView(OwedToPeer(steps, true), [])
      && Texts(PeerDrain(accepted).frames) == SendsWhileOpen(steps, true)
  {
    var sent := AfterSteps(masks, OPENED, steps).sent;
    WritesWhatIsOwed(masks, OPENED, steps, true);
    assert [] + OwedToPeer(steps, true) == OwedToPeer(steps, true);
    PeerReadsWritten(accepted, queued, sent);
    TextsOwed(steps, true);
  }
}
