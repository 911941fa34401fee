/** Framing of the WebSocket test server: a receive buffer that compacts in place, and the frames of
    RFC 6455, sections 5.2 and 5.3. Bits of bytes are written in arithmetic: `b & 0x7F` is `b % 0x80`, and so on. */
module WebSocketFrames {
  import A = Arith
  import opened Collections

  type Byte = b: int | 0 <= b < 0x100

  // ----- frames

  /** The number that a row of bytes stands for, most significant byte first. */
  function Be(bytes: seq<Byte>): nat {
    if bytes == [] then 0 else Be(bytes[..|bytes| - 1]) * 0x100 + bytes[|bytes| - 1]
  }

  function BeBytes(n: nat, k: nat): (bytes: seq<Byte>)
    ensures |bytes| == k
  {
    if k == 0 then [] else BeBytes(n / 0x100, k - 1) + [n % 0x100]
  }

  function Power(k: nat): nat { if k == 0 then 1 else 0x100 * Power(k - 1) }

  lemma {:induction false} BeRoundTrip(n: nat, k: nat)
    requires n < Power(k)
    ensures Be(BeBytes(n, k)) == n
  {
    if k > 0 {
      BeRoundTrip(n / 0x100, k - 1);
      assert BeBytes(n, k)[..k - 1] == BeBytes(n / 0x100, k - 1);
    }
  }

  function XorBits(a: nat, b: nat, bits: nat): (r: nat)
    ensures r < Shift(bits)
  {
    if bits == 0 then 0 else (a + b) % 2 + 2 * XorBits(a / 2, b / 2, bits - 1)
  }

  function Shift(bits: nat): nat { if bits == 0 then 1 else 2 * Shift(bits - 1) }

  /** Bitwise exclusive or of two bytes. */
  function Xor(a: Byte, b: Byte): Byte {
    assert Shift(4) == 0x10 && Shift(8) == 0x100;
    XorBits(a, b, 8)
  }

  lemma BitTwice(a: nat, b: nat, q: nat)
    ensures var r := (a + b) % 2 + 2 * q; r / 2 == q && (r + b) % 2 == a % 2
  {
    assert (a + b) % 2 == 0 || (a + b) % 2 == 1;
  }

  lemma {:induction false} XorBitsTwice(a: nat, b: nat, bits: nat)
    requires a < Shift(bits)
    ensures XorBits(XorBits(a, b, bits), b, bits) == a
  {
    if bits > 0 {
      BitTwice(a, b, XorBits(a / 2, b / 2, bits - 1));
      XorBitsTwice(a / 2, b / 2, bits - 1);
    }
  }

  lemma XorTwice(a: Byte, b: Byte)
    ensures Xor(Xor(a, b), b) == a
  {
    assert Shift(4) == 0x10 && Shift(8) == 0x100;
    XorBitsTwice(a, b, 8);
  }

  /** Bit `i` of a number, the lowest being bit 0. */
  predicate Bit(n: nat, i: nat) { if i == 0 then n % 2 == 1 else Bit(n / 2, i - 1) }

  lemma {:induction false} XorBitsBit(a: nat, b: nat, bits: nat, i: nat)
    requires i < bits
    ensures Bit(XorBits(a, b, bits), i) <==> Bit(a, i) != Bit(b, i)
  {
    var rest := XorBits(a / 2, b / 2, bits - 1);
    BitTwice(a, b, rest);
    if i > 0 {
      XorBitsBit(a / 2, b / 2, bits - 1, i - 1);
    } else {
      assert ((a + b) % 2 + 2 * rest) % 2 == (a + b) % 2;
    }
  }

  /** A bit is set exactly where the two bytes differ. */
  lemma XorBit(a: Byte, b: Byte, i: nat)
    requires i < 8
    ensures Bit(Xor(a, b), i) <==> Bit(a, i) != Bit(b, i)
  {
    XorBitsBit(a, b, 8, i);
  }

  /** Every bit of `r` is set exactly where `s` differs from the byte of the key whose turn it is. */
  ghost predicate ExclusiveOr(r: seq<Byte>, s: seq<Byte>, key: seq<Byte>)
    requires |key| == 4
  {
    |r| == |s| && forall i, j :: 0 <= i < |s| && 0 <= j < 8 ==> (Bit(r[i], j) <==> Bit(s[i], j) != Bit(key[i % 4], j))
  }

  /** Masking and unmasking, section 5.3. */
  ghost function Masked(payload: seq<Byte>, key: seq<Byte>): (r: seq<Byte>)
    requires |key| == 4
    ensures |r| == |payload|
  {
    seq(|payload|, i requires 0 <= i < |payload| => Xor(payload[i], key[i % 4]))
  }

  lemma MaskedBits(payload: seq<Byte>, key: seq<Byte>)
    requires |key| == 4
    ensures ExclusiveOr(Masked(payload, key), payload, key)
  {
    hide Xor, Bit;
    forall i, j | 0 <= i < |payload| && 0 <= j < 8
      ensures Bit(Masked(payload, key)[i], j) <==> Bit(payload[i], j) != Bit(key[i % 4], j)
    {
      XorBit(payload[i], key[i % 4], j);
    }
  }

  lemma MaskTwice(payload: seq<Byte>, key: seq<Byte>)
    requires |key| == 4
    ensures Masked(Masked(payload, key), key) == payload
  {
    forall i | 0 <= i < |payload|
      ensures Xor(Xor(payload[i], key[i % 4]), key[i % 4]) == payload[i]
    {
      XorTwice(payload[i], key[i % 4]);
    }
  }

  predicate HasMask(b: Byte) { b >= 0x80 }

  function Length7(b: Byte): nat { b % 0x80 }

  function HeaderSize(b: Byte): (n: nat)
    ensures n == 2 || n == 4 || n == 10
  {
    if Length7(b) == 126 then 4 else if Length7(b) == 127 then 10 else 2
  }

  function PayloadLength(s: seq<Byte>): nat
    requires |s| >= 2 && |s| >= HeaderSize(s[1])
  {
    if Length7(s[1]) < 126 then Length7(s[1]) else Be(s[2..HeaderSize(s[1])])
  }

  datatype Frame = Frame(opcode: Byte, payload: seq<Byte>)

  datatype Decoded = Incomplete | Decoded(frame: Frame, size: nat)

  /** The header of a frame, taken apart. */
  datatype Header = Header(opcode: Byte, masked: bool, size: nat, payload: nat) {
    function MaskSize(): nat { if masked then 4 else 0 }

    function Total(): nat { size + MaskSize() + payload }
  }

  ghost function PayloadOf(s: seq<Byte>, h: Header): seq<Byte>
    requires |s| >= h.Total() && h.size >= 2
  {
    var at := h.size + h.MaskSize();
    if h.masked then Masked(s[at..h.Total()], s[at - 4..at]) else s[at..h.Total()]
  }

  function HeaderOf(s: seq<Byte>): Header
    requires |s| >= 2 && |s| >= HeaderSize(s[1])
  {
    Header(s[0] % 0x10, HasMask(s[1]), HeaderSize(s[1]), PayloadLength(s))
  }

  /** The first frame of a stream of bytes. */
  ghost function Decode(s: seq<Byte>): Decoded {
    if |s| < 2 || |s| < HeaderSize(s[1]) || |s| < HeaderOf(s).Total() then Incomplete
    else Decoded(Frame(HeaderOf(s).opcode, PayloadOf(s, HeaderOf(s))), HeaderOf(s).Total())
  }

  /** Two and eight bytes as a number, each with its weight. */
  function Two(a: nat, b: nat): nat { 0x100 * a + b }

  function Eight(a: nat, b: nat, c: nat, d: nat, e: nat, f: nat, g: nat, h: nat): nat {
    0x100_0000_0000_0000 * a + 0x1_0000_0000_0000 * b + 0x100_0000_0000 * c + 0x1_0000_0000 * d + 0x100_0000 * e
    + 0x1_0000 * f + 0x100 * g + h
  }

  /** What a frame says, read off its bytes. */
  ghost predicate ReadsAs(s: seq<Byte>, frame: Frame, size: nat) {
    && |s| >= 2 && frame.opcode == s[0] % 0x10
    && var start := if s[1] % 0x80 == 126 then 4 else if s[1] % 0x80 == 127 then 10 else 2;
    && |s| >= start
    && var len: nat := if start == 2 then s[1] % 0x80 else if start == 4 then Two(s[2], s[3])
                       else Eight(s[2], s[3], s[4], s[5], s[6], s[7], s[8], s[9]);
    && size == start + (if s[1] >= 0x80 then 4 else 0) + len
    && |s| >= size
    && if s[1] >= 0x80 then ExclusiveOr(frame.payload, s[start + 4..size], s[start..start + 4])
       else frame.payload == s[start..size]
  }

  /** The frame that is decoded is the one that the bytes spell: the low four bits of the first byte, the length in one
      of its three forms, and the payload with every bit flipped for which the key has one. */
  lemma DecodedReads(s: seq<Byte>)
    ensures Decode(s).Decoded? ==> ReadsAs(s, Decode(s).frame, Decode(s).size)
  {
    hide Masked, Bit, ExclusiveOr, Be;
    if Decode(s).Decoded? {
      var h := HeaderOf(s);
      if h.size == 4 { BePair(s[2..4]); }
      if h.size == 10 { BeEight(s[2..10]); }
      var at := h.size + h.MaskSize();
      if h.masked { MaskedBits(s[at..h.Total()], s[at - 4..at]); }
    }
  }

  lemma BePair(b: seq<Byte>)
    requires |b| == 2
    ensures Be(b) == Two(b[0], b[1])
  {
    assert Be(b[..1]) == b[0] by { assert b[..1][..0] == []; }
  }

  lemma BeEight(b: seq<Byte>)
    requires |b| == 8
    ensures Be(b) == Eight(b[0], b[1], b[2], b[3], b[4], b[5], b[6], b[7])
  {
    BePair(b[..2]);
    BeNext(b, 2);
    BeNext(b, 3);
    BeNext(b, 4);
    BeNext(b, 5);
    BeNext(b, 6);
    BeNext(b, 7);
    assert b[..8] == b;
  }

  lemma BeNext(b: seq<Byte>, n: nat)
    requires n < |b|
    ensures Be(b[..n + 1]) == Be(b[..n]) * 0x100 + b[n]
  {
    assert b[..n + 1][..n] == b[..n];
  }

  /** All frames of a stream, up to the first one that is incomplete or longer than the buffer. */
  ghost function DecodeAll(s: seq<Byte>, capacity: nat): seq<Frame>
    decreases |s|
  {
    match Decode(s)
    case Incomplete => []
    case Decoded(frame, size) => if size > capacity then [] else [frame] + DecodeAll(s[size..], capacity)
  }

  /** Bytes behind a frame do not matter to it. */
  lemma FrontOf(s: seq<Byte>, rest: seq<Byte>, h: Header)
    requires |s| >= h.Total() && h.size >= 2
    ensures PayloadOf(s + rest, h) == PayloadOf(s, h) && (s + rest)[h.Total()..] == s[h.Total()..] + rest
  {
    var at := h.size + h.MaskSize();
    assert (s + rest)[at..h.Total()] == s[at..h.Total()];
    assert h.masked ==> (s + rest)[at - 4..at] == s[at - 4..at];
  }

  lemma DecodeTakes(s: seq<Byte>)
    ensures Decode(s).Decoded? ==> 0 < Decode(s).size <= |s|
  {
  }

  /** A close frame is the last one; so is a text or binary frame whose handler fails. */
  predicate Ends(f: Frame, fails: Frame -> bool) { f.opcode == 8 || ((f.opcode == 1 || f.opcode == 2) && fails(f)) }

  /** What is handled. */
  ghost function UpToEnd(frames: seq<Frame>, fails: Frame -> bool): seq<Frame> {
    if frames == [] then [] else [frames[0]] + if Ends(frames[0], fails) then [] else UpToEnd(frames[1..], fails)
  }

  /** No close frame, and no text or binary frame whose handler fails. */
  predicate Passes(f: Frame, fails: Frame -> bool) {
    f.opcode != 8 && (f.opcode == 1 || f.opcode == 2 ==> !fails(f))
  }

  /** A frame is handled exactly when all before it pass. */
  lemma {:induction false} HandledExactly(frames: seq<Frame>, fails: Frame -> bool, i: nat)
    requires i < |frames|
    ensures UpToEnd(frames, fails) <= frames
    ensures i < |UpToEnd(frames, fails)| <==> forall j :: 0 <= j < i ==> Passes(frames[j], fails)
    decreases |frames|
  {
    var rest := frames[1..];
    assert frames == [frames[0]] + rest;
    if rest == [] {
      assert UpToEnd(rest, fails) == [];
    } else {
      HandledExactly(rest, fails, if i > 0 then i - 1 else 0);
      assert forall j :: 1 <= j < i ==> frames[j] == rest[j - 1];
      assert forall j :: 0 <= j < i - 1 ==> rest[j] == frames[j + 1];
    }
  }

  /** What is handled once the first frame is known. */
  ghost function ServeRest(f: Frame, rest: seq<Byte>, size: nat, capacity: nat, fails: Frame -> bool): seq<Frame> {
    if size > capacity then [] else if Ends(f, fails) then [f] else [f] + UpToEnd(DecodeAll(rest, capacity), fails)
  }

  lemma ServeStep(s: seq<Byte>, capacity: nat, fails: Frame -> bool)
    ensures Decode(s).Incomplete? ==> UpToEnd(DecodeAll(s, capacity), fails) == []
    ensures Decode(s).Decoded? ==> 0 < Decode(s).size <= |s|
    ensures Decode(s).Decoded? ==>
              UpToEnd(DecodeAll(s, capacity), fails)
              == ServeRest(Decode(s).frame, s[Decode(s).size..], Decode(s).size, capacity, fails)
  {
    DecodeTakes(s);
    if Decode(s).Decoded? && Decode(s).size <= capacity {
      var f, rest := Decode(s).frame, DecodeAll(s[Decode(s).size..], capacity);
      assert DecodeAll(s, capacity) == [f] + rest && ([f] + rest)[1..] == rest;
    }
  }

  // ----- receiving

  /** The read side of a socket. `incoming` is what the peer sends before it closes; how much of it one read
      yields is up to the network. */
  class Socket {
    var incoming: seq<Byte>

    method Read(max: nat) returns (data: seq<Byte>)
      modifies this
      ensures old(incoming) == data + incoming && |data| <= max
      ensures data == [] <==> max == 0 || old(incoming) == []
    {
      if max == 0 || incoming == [] {
        return [];
      }
      var n: nat :| 0 < n <= max && n <= |incoming|;
      data := incoming[..n];
      incoming := incoming[n..];
    }
  }

  class RecvBuffer {
    const buf: array<Byte>
    var start: nat
    var end: nat

    ghost predicate Valid()
      reads this
    {
      start <= end <= buf.Length && buf.Length >= 1024
    }

    /** What has arrived and is not consumed. */
    ghost function Available(): seq<Byte>
      requires Valid()
      reads this, buf
    {
      buf[start..end]
    }

    /** What is not consumed, arrived or not. */
    ghost function Stream(client: Socket): seq<Byte>
      requires Valid()
      reads this, buf, client
    {
      Available() + client.incoming
    }

    constructor (buf: array<Byte>)
      requires buf.Length >= 1024
      ensures this.buf == buf && Valid() && start == 0 && end == 0
    {
      this.buf := buf;
      start, end := 0, 0;
    }

    method Consume(n: nat)
      requires Valid() && n <= end - start
      modifies this
      ensures Valid() && Available() == old(Available())[n..]
    {
      start := start + n;
      if start >= end {
        start, end := 0, 0;
      }
    }

    /** Moves what is available to the front. */
    method Compact()
      requires Valid()
      modifies this, buf
      ensures Valid() && start == 0 && Available() == old(Available())
    {
      var avail := end - start;
      ghost var was := Available();
      var i := 0;
      while i < avail
        invariant 0 <= i <= avail && start == old(start) && end == old(end)
        invariant forall j :: 0 <= j < i ==> buf[j] == was[j]
        invariant forall j :: i <= j < avail ==> buf[start + j] == was[j]
      {
        buf[i] := buf[start + i];
        i := i + 1;
      }
      start, end := 0, avail;
    }

    /** Reads until `needed` bytes are available. That fails when the stream ends too early or the buffer is
        too small, and loses nothing. */
    method EnsureBytes(client: Socket, needed: nat) returns (ok: bool)
      requires Valid()
      modifies this, buf, client
      ensures Valid() && Stream(client) == old(Stream(client))
      ensures ok ==> end - start >= needed
      ensures ok <==> needed <= |old(Stream(client))| && needed <= buf.Length
    {
      while end - start < needed
        invariant Valid() && Stream(client) == old(Stream(client))
        decreases |client.incoming|
      {
        if end >= buf.Length - 1024 {
          Compact();
        }
        var got := ReadOnce(client);
        if !got {
          return false;
        }
      }
      ok := true;
    }

    /** One read into the free end of the buffer. Nothing comes when there is no room or the stream is over. */
    method ReadOnce(client: Socket) returns (got: bool)
      requires Valid()
      modifies this, buf, client
      ensures Valid() && Stream(client) == old(Stream(client)) && start == old(start)
      ensures got ==> |client.incoming| < |old(client.incoming)|
      ensures !got ==> end == old(end) && (end == buf.Length || client.incoming == [])
    {
      ghost var available := Available();
      var data := client.Read(buf.Length - end);
      if data == [] {
        return false;
      }
      Fill(data);
      got := true;
      assert (available + data) + client.incoming == available + (data + client.incoming);
    }

    /** What the read puts after the bytes that are there. */
    method Fill(data: seq<Byte>)
      requires Valid() && |data| <= buf.Length - end
      modifies this, buf
      ensures Valid() && start == old(start) && Available() == old(Available()) + data
    {
      forall i | 0 <= i < |data| {
        buf[end + i] := data[i];
      }
      end := end + |data|;
    }

    /** Reads until the header of the next frame is available and takes it apart. */
    method ReadHeader(client: Socket) returns (header: Option<Header>)
      requires Valid()
      modifies this, buf, client
      ensures Valid() && Stream(client) == old(Stream(client))
      ensures var s := old(Stream(client));
              if |s| < 2 || |s| < HeaderSize(s[1]) then header.None?
              else header == Some(HeaderOf(s))
    {
      var ok := EnsureBytes(client, 2);
      if !ok { return None; }
      AvailableIs(client);
      var opcode: Byte := buf[start] % 0x10;
      var masked := HasMask(buf[start + 1]);
      var payloadLen := Length7(buf[start + 1]);
      var headerSize := 2;
      if payloadLen == 126 {
        ok := EnsureBytes(client, 4);
        if !ok { return None; }
        AvailableIs(client);
        payloadLen := Be(buf[start + 2..start + 4]);
        headerSize := 4;
      } else if payloadLen == 127 {
        ok := EnsureBytes(client, 10);
        if !ok { return None; }
        AvailableIs(client);
        payloadLen := Be(buf[start + 2..start + 10]);
        headerSize := 10;
      }
      header := Some(Header(opcode, masked, headerSize, payloadLen));
    }

    /** Unmasks the payload of the frame at the front. */
    method Unveil(header: Header, at: nat)
      requires Valid() && header.size >= 2 && end - start >= header.Total()
               && at == start + header.size + header.MaskSize()
      modifies buf
      ensures buf[at..at + header.payload] == PayloadOf(old(Available()), header)
      ensures Available()[header.Total()..] == old(Available())[header.Total()..]
    {
      hide Masked, ExclusiveOr;
      Slice(at - start, header.Total());
      Slice(header.Total(), end - start);
      if header.masked {
        var key := buf[at - 4..at];
        Slice(at - start - 4, at - start);
        Unmask(at, header.payload, key);
        Slice(header.Total(), end - start);
        Behind(buf[at + header.payload..], old(buf[at + header.payload..]), end - at - header.payload);
      }
    }

    lemma Behind(a: seq<Byte>, b: seq<Byte>, n: nat)
      requires a == b && n <= |a|
      ensures a[..n] == b[..n]
    {
    }

    /** Unmasks the payload of the frame at the front and consumes the frame. */
    method Take(header: Header) returns (frame: InPlace)
      requires Valid() && header.size >= 2 && end - start >= header.Total()
      modifies this, buf
      ensures Valid() && frame.opcode == header.opcode && frame.at + frame.len <= buf.Length
      ensures Available() == old(Available())[header.Total()..]
      ensures buf[frame.at..frame.at + frame.len] == PayloadOf(old(Available()), header)
    {
      hide PayloadOf;
      var at := start + header.size + header.MaskSize();
      Unveil(header, at);
      frame := InPlace(header.opcode, at, header.payload);
      Consume(header.Total());
    }

    /** Reads the next frame and unmasks its payload in place. The result says where in the buffer the payload
        is; it stays there until the next call. */
    method ReadFrame(client: Socket) returns (frame: Option<InPlace>)
      requires Valid()
      modifies this, buf, client
      ensures Valid()
      ensures match Decode(old(Stream(client)))
              case Incomplete => frame.None? && Stream(client) == old(Stream(client))
              case Decoded(f, size) =>
                if size > buf.Length then frame.None? && Stream(client) == old(Stream(client))
                else
                  && frame.Some? && frame.value.opcode == f.opcode && frame.value.at + frame.value.len <= buf.Length
                  && buf[frame.value.at..frame.value.at + frame.value.len] == f.payload
                  && ReadsAs(old(Stream(client)), f, size)
                  && Stream(client) == old(Stream(client))[size..]
    {
      hide Masked, PayloadOf, Be, PayloadLength, ReadsAs;
      ghost var stream := Stream(client);
      DecodedReads(stream);
      var header := ReadHeader(client);
      if header.None? { return None; }
      var ok := EnsureBytes(client, header.value.Total());
      if !ok { return None; }
      ghost var available := Available();
      FrontOf(available, client.incoming, header.value);
      var inPlace := Take(header.value);
      frame := Some(inPlace);
      assert Stream(client) == stream[header.value.Total()..];
    }

    lemma Slice(i: nat, j: nat)
      requires Valid() && i <= j <= end - start
      ensures Available()[i..j] == buf[start + i..start + j]
    {
      var a, b := Available()[i..j], buf[start + i..start + j];
      assert |a| == |b|;
      assert forall k :: 0 <= k < |a| ==> a[k] == Available()[i + k] == buf[start + i + k] == b[k];
    }

    /** The available bytes are the front of the stream. */
    lemma AvailableIs(client: Socket)
      requires Valid()
      ensures forall i :: 0 <= i < end - start ==> Stream(client)[i] == buf[start + i]
      ensures forall i, j :: 0 <= i <= j <= end - start ==> Stream(client)[i..j] == buf[start + i..start + j]
    {
    }

    method Unmask(at: nat, len: nat, key: seq<Byte>)
      requires at + len <= buf.Length && |key| == 4
      modifies buf
      ensures buf[at..at + len] == Masked(old(buf[at..at + len]), key)
      ensures ExclusiveOr(buf[at..at + len], old(buf[at..at + len]), key)
      ensures buf[..at] == old(buf[..at]) && buf[at + len..] == old(buf[at + len..])
    {
      hide Xor, ExclusiveOr;
      MaskedBits(buf[at..at + len], key);
      var i := 0;
      while i < len
        invariant 0 <= i <= len
        invariant forall j :: 0 <= j < i ==> buf[at + j] == Xor(old(buf[at + j]), key[j % 4])
        invariant forall j :: 0 <= j < buf.Length && !(at <= j < at + i) ==> buf[j] == old(buf[j])
      {
        buf[at + i] := Xor(buf[at + i], key[i % 4]);
        i := i + 1;
      }
    }

    /** Reads until the stream ends, a frame does not fit, the peer closes, or a handler fails; `fails` says on
        which text and binary frames that is. */
    method Serve(client: Socket, fails: Frame -> bool) returns (frames: seq<Frame>)
      requires Valid()
      modifies this, buf, client
      ensures Valid() && frames == UpToEnd(DecodeAll(old(Stream(client)), buf.Length), fails)
    {
      hide Decode, DecodeAll, UpToEnd, ReadsAs;
      frames := [];
      ghost var goal := UpToEnd(DecodeAll(Stream(client), buf.Length), fails);
      while true
        invariant Valid() && goal == frames + UpToEnd(DecodeAll(Stream(client), buf.Length), fails)
        decreases |Stream(client)|
      {
        ghost var before, stream := frames, Stream(client);
        ServeStep(stream, buf.Length, fails);
        var frame := ReadFrame(client);
        if frame.None? { break; }
        var f := Frame(frame.value.opcode, buf[frame.value.at..frame.value.at + frame.value.len]);
        frames := frames + [f];
        if f.opcode == 8 { break; }
        if f.opcode == 1 {
          if fails(f) { break; }
        } else if f.opcode == 2 {
          if fails(f) { break; }
        }
        ghost var others := UpToEnd(DecodeAll(Stream(client), buf.Length), fails);
        assert before + ([f] + others) == frames + others;
      }
    }
  }

  datatype InPlace = InPlace(opcode: Byte, at: nat, len: nat)

  // ----- sending

  /** The second byte of a frame and the extended length, section 5.2. */
  function LengthPart(n: nat, masked: bool): seq<Byte> {
    var mask := if masked then 0x80 else 0;
    if n <= 125 then [mask + n] else if n <= 65535 then [mask + 126] + BeBytes(n, 2) else [mask + 127] + BeBytes(n, 8)
  }

  /** What follows the header on the wire. */
  ghost function Body(key: Option<seq<Byte>>, payload: seq<Byte>): seq<Byte>
    requires key.Some? ==> |key.value| == 4
  {
    if key.Some? then key.value + Masked(payload, key.value) else payload
  }

  /** A frame on the wire; `key` is there when a client masks it. */
  ghost function Encode(opcode: Byte, key: Option<seq<Byte>>, payload: seq<Byte>): seq<Byte>
    requires key.Some? ==> |key.value| == 4
  {
    [0x80 + opcode % 0x80] + LengthPart(|payload|, key.Some?) + Body(key, payload)
  }

  lemma LengthPartRead(first: Byte, n: nat, masked: bool, rest: seq<Byte>)
    requires n < Power(8)
    ensures var s := [first] + LengthPart(n, masked) + rest;
            && |s| >= HeaderSize(s[1]) == 1 + |LengthPart(n, masked)| && HasMask(s[1]) == masked
                && PayloadLength(s) == n
  {
    hide BeBytes, Be, Power;
    var s := [first] + LengthPart(n, masked) + rest;
    if n <= 125 {
    } else if n <= 65535 {
      PowerTwo();
      BeRoundTrip(n, 2);
      assert s[2..4] == BeBytes(n, 2);
    } else {
      BeRoundTrip(n, 8);
      assert s[2..10] == BeBytes(n, 8);
    }
  }

  lemma PowerTwo()
    ensures Power(2) == 0x1_0000
  {
  }

  lemma BodyRead(front: seq<Byte>, key: Option<seq<Byte>>, payload: seq<Byte>, rest: seq<Byte>, h: Header)
    requires key.Some? ==> |key.value| == 4
    requires |front| >= 2 && h.masked == key.Some? && h.size == |front| && h.payload == |payload|
    ensures var s := front + Body(key, payload) + rest;
            h.Total() == |front| + |Body(key, payload)| && PayloadOf(s, h) == payload
  {
    hide Masked;
    var s := front + Body(key, payload) + rest;
    if key.Some? {
      MaskTwice(payload, key.value);
      assert s[|front|..|front| + 4] == key.value;
      assert s[|front| + 4..h.Total()] == Masked(payload, key.value);
    } else {
      assert s[|front|..h.Total()] == payload;
    }
  }

  /** Decoding gives back what was encoded, masked or not, whatever follows in the stream. */
  lemma DecodeEncode(opcode: Byte, key: Option<seq<Byte>>, payload: seq<Byte>, rest: seq<Byte>)
    requires key.Some? ==> |key.value| == 4
    requires opcode < 0x10 && |payload| < Power(8)
    ensures var e := Encode(opcode, key, payload); Decode(e + rest) == Decoded(Frame(opcode, payload), |e|)
  {
    hide LengthPart, Body, Power, PayloadLength, HeaderSize, HasMask, PayloadOf, Header.Total;
    var front := [0x80 + opcode % 0x80] + LengthPart(|payload|, key.Some?);
    assert Encode(opcode, key, payload) + rest == front + Body(key, payload) + rest;
    assert front + Body(key, payload) + rest == front + (Body(key, payload) + rest);
    LengthPartRead(0x80 + opcode % 0x80, |payload|, key.Some?, Body(key, payload) + rest);
    BodyRead(front, key, payload, rest, HeaderOf(front + Body(key, payload) + rest));
  }

  lemma BeByteAt(n: nat, k: nat, i: nat)
    requires i < k
    ensures Power(k - 1 - i) > 0 && BeBytes(n, k)[i] == n / Power(k - 1 - i) % 0x100
  {
    PowerPositive(k - 1 - i);
    if i < k - 1 {
      BeByteAt(n / 0x100, k - 1, i);
      PowerPositive(k - 2 - i);
      DivideTwice(n, Power(k - 2 - i));
    }
  }

  lemma PowerPositive(k: nat)
    ensures Power(k) > 0
  {
  }

  lemma DivideTwice(n: nat, p: nat)
    requires p > 0
    ensures 0x100 * p > 0 && n / 0x100 / p == n / (0x100 * p)
  {
    var q, r := n / 0x100 / p, n / 0x100 % p;
    assert n == 0x100 * (q * p + r) + n % 0x100;
    assert n == q * (0x100 * p) + (0x100 * r + n % 0x100) && 0x100 * r + n % 0x100 < 0x100 * p;
    A.Quotient(n, 0x100 * p, q, 0x100 * r + n % 0x100);
  }

  lemma Powers()
    ensures Power(0) == 1 && Power(1) == 0x100 && Power(2) == 0x1_0000 && Power(3) == 0x100_0000
            && Power(4) == 0x1_0000_0000
    ensures Power(5) == 0x100_0000_0000 && Power(6) == 0x1_0000_0000_0000 && Power(7) == 0x100_0000_0000_0000
  {
    assert Power(2) == 0x1_0000;
    assert Power(4) == 0x1_0000_0000;
    assert Power(6) == 0x1_0000_0000_0000;
  }

  lemma Bytes2(n: nat)
    ensures BeBytes(n, 2) == [n / 0x100 % 0x100, n % 0x100]
  {
    Powers();
    BeByteAt(n, 2, 0);
    BeByteAt(n, 2, 1);
  }

  lemma Bytes8(n: nat)
    ensures BeBytes(n, 8) == [
      n / 0x100_0000_0000_0000 % 0x100, n / 0x1_0000_0000_0000 % 0x100, n / 0x100_0000_0000 % 0x100,
      n / 0x1_0000_0000 % 0x100, n / 0x100_0000 % 0x100, n / 0x1_0000 % 0x100,
      n / 0x100 % 0x100, n % 0x100]
  {
    hide BeBytes, Power;
    Powers();
    BeByteAt(n, 8, 0);
    BeByteAt(n, 8, 1);
    BeByteAt(n, 8, 2);
    BeByteAt(n, 8, 3);
    BeByteAt(n, 8, 4);
    BeByteAt(n, 8, 5);
    BeByteAt(n, 8, 6);
    BeByteAt(n, 8, 7);
  }

  method BuildHeader(opcode: Byte, n: nat) returns (header: array<Byte>, len: nat)
    ensures fresh(header) && 2 <= len <= header.Length && header[..len] == [0x80 + opcode % 0x80] + LengthPart(n, false)
  {
    hide BeBytes;
    header := new Byte[10](i => 0);
    header[0] := 0x80 + opcode % 0x80;
    if n <= 125 {
      header[1] := n;
      len := 2;
    } else if n <= 65535 {
      header[1] := 126;
      header[2] := n / 0x100 % 0x100;
      header[3] := n % 0x100;
      len := 4;
      Bytes2(n);
    } else {
      header[1] := 127;
      header[2] := n / 0x100_0000_0000_0000 % 0x100;
      header[3] := n / 0x1_0000_0000_0000 % 0x100;
      header[4] := n / 0x100_0000_0000 % 0x100;
      header[5] := n / 0x1_0000_0000 % 0x100;
      header[6] := n / 0x100_0000 % 0x100;
      header[7] := n / 0x1_0000 % 0x100;
      header[8] := n / 0x100 % 0x100;
      header[9] := n % 0x100;
      len := 10;
      Bytes8(n);
    }
  }

  /** What the server sends is a final frame that is not masked. */
  lemma FinalAndPlain(opcode: Byte, payload: seq<Byte>)
    ensures var e := Encode(opcode, None, payload);
            |e| >= 2 && e[0] >= 0x80 && e[0] % 0x80 == opcode % 0x80 && e[1] < 0x80
  {
    hide BeBytes;
  }

  /** Writes a frame whose payload is in two parts: header, prefix, payload. */
  method SendFrame(opcode: Byte, prefix: seq<Byte>, payload: seq<Byte>) returns (written: seq<Byte>)
    ensures written == Encode(opcode, None, prefix + payload)
    ensures |written| >= 2 && written[0] >= 0x80 && written[0] % 0x80 == opcode % 0x80 && written[1] < 0x80
  {
    hide LengthPart;
    FinalAndPlain(opcode, prefix + payload);
    var header, len := BuildHeader(opcode, |prefix| + |payload|);
    written := header[..len];
    if |prefix| > 0 { written := written + prefix; }
    if |payload| > 0 { written := written + payload; }
  }

  /** A stream of frames that all fit is decoded to the same frames, however they are masked. */
  ghost function EncodeAll(frames: seq<Frame>, keys: seq<Option<seq<Byte>>>): seq<Byte>
    requires |keys| == |frames| && forall i :: 0 <= i < |keys| && keys[i].Some? ==> |keys[i].value| == 4
  {
    if frames == [] then []
    else Encode(frames[0].opcode, keys[0], frames[0].payload) + EncodeAll(frames[1..], keys[1..])
  }

  lemma {:induction false} StreamRoundTrip(frames: seq<Frame>, keys: seq<Option<seq<Byte>>>, capacity: nat)
    requires |keys| == |frames| && forall i :: 0 <= i < |keys| && keys[i].Some? ==> |keys[i].value| == 4
    requires forall f :: f in frames ==> f.opcode < 0x10 && |f.payload| < Power(8)
    requires forall i :: 0 <= i < |frames| ==> |Encode(frames[i].opcode, keys[i], frames[i].payload)| <= capacity
    ensures DecodeAll(EncodeAll(frames, keys), capacity) == frames
    decreases |frames|
  {
    hide Encode, Decode, Power;
    if frames == [] {
      assert Decode([]).Incomplete? by { NothingDecodes(); }
    } else {
      var f, e, rest := frames[0], Encode(frames[0].opcode, keys[0], frames[0].payload),
          EncodeAll(frames[1..], keys[1..]);
      DecodeEncode(f.opcode, keys[0], f.payload, rest);
      DecodeTakes(e + rest);
      StreamRoundTrip(frames[1..], keys[1..], capacity);
      assert (e + rest)[|e|..] == rest;
    }
  }

  lemma NothingDecodes()
    ensures Decode([]).Incomplete?
  {
  }
}
