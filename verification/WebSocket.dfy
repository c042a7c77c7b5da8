/** tools/morse_browser_smoke.py: the WebSocket framing of the DevTools client, against the frame
    layout of sections 5.2 and 5.3 of RFC 6455. */
module WebSocket {
  import opened Options

  type Byte = bv8

  // ----- RFC 6455, section 5.2: the frame layout -------------------------------------------------

  /** `key` is present exactly when the mask bit is set. */
  datatype Frame = Frame(fin: bool, reserved: Byte, opcode: Byte, key: Option<seq<Byte>>, payload: seq<Byte>)

  ghost predicate WellFormed(f: Frame) {
    f.reserved < 8 && f.opcode < 16 && (f.key.Some? ==> |f.key.value| == 4) && |f.payload| < 0x8000_0000_0000_0000
  }

  /** A number in network byte order. */
  function Value(bytes: seq<Byte>): nat {
    if bytes == [] then 0 else 256 * Value(bytes[..|bytes| - 1]) + bytes[|bytes| - 1] as nat
  }

  /** struct.pack with "!H" (two bytes) or "!Q" (eight bytes). */
  function BigEndian(n: nat, width: nat): (bytes: seq<Byte>)
    ensures |bytes| == width
  {
    if width == 0 then [] else BigEndian(n / 256, width - 1) + [(n % 256) as Byte]
  }

  function Power256(width: nat): (p: nat)
    ensures p > 0
  {
    if width == 0 then 1 else 256 * Power256(width - 1)
  }

  lemma ByteOf(n: nat)
    requires n < 256
    ensures (n as Byte) as nat == n
  {
    var high := n / 16;
    if high < 8 {
      if high == 0 {} else if high == 1 {} else if high == 2 {} else if high == 3 {}
      else if high == 4 {} else if high == 5 {} else if high == 6 {} else {}
    } else {
      if high == 8 {} else if high == 9 {} else if high == 10 {} else if high == 11 {}
      else if high == 12 {} else if high == 13 {} else if high == 14 {} else {}
    }
  }

  lemma {:induction false} BigEndianValue(n: nat, width: nat)
    requires n < Power256(width)
    ensures Value(BigEndian(n, width)) == n
  {
    if width > 0 {
      BigEndianValue(n / 256, width - 1);
      ByteOf(n % 256);
      var bytes := BigEndian(n, width);
      assert bytes[..width - 1] == BigEndian(n / 256, width - 1);
    }
  }

  /** Section 5.3: octet i of one is octet i of the other, exclusive-or octet i modulo 4 of the key. */
  function Masked(payload: seq<Byte>, key: seq<Byte>): (r: seq<Byte>)
    requires |key| == 4
    ensures |r| == |payload|
  {
    seq(|payload|, i requires 0 <= i < |payload| => payload[i] ^ key[i % 4])
  }

  lemma XorTwice(a: Byte, b: Byte)
    ensures (a ^ b) ^ b == a
  {
  }

  lemma MaskedTwice(payload: seq<Byte>, key: seq<Byte>)
    requires |key| == 4
    ensures Masked(Masked(payload, key), key) == payload
  {
    forall i | 0 <= i < |payload|
      ensures Masked(Masked(payload, key), key)[i] == payload[i]
    {
      XorTwice(payload[i], key[i % 4]);
    }
  }

  /** Where the length says the payload starts, and how long it is. */
  datatype Extent = Extent(header: nat, size: nat)

  function LengthField(bytes: seq<Byte>): (e: Option<Extent>)
    ensures e.Some? ==> 2 <= e.value.header <= |bytes|
  {
    if |bytes| < 2 then None else
      var short := bytes[1] & 0x7F;
      if short == 126 then
        if |bytes| < 4 then None else Some(Extent(4, Value(bytes[2..4])))
      else if short == 127 then
        if |bytes| < 10 then None else Some(Extent(10, Value(bytes[2..10])))
      else Some(Extent(2, short as nat))
  }

  predicate Fin(first: Byte) { first & 0x80 != 0 }

  function Reserved(first: Byte): Byte { (first >> 4) & 0x07 }

  function Opcode(first: Byte): Byte { first & 0x0F }

  predicate HasMask(second: Byte) { second & 0x80 != 0 }

  datatype Decoded = Decoded(frame: Frame, length: nat)

  /** The frame at the start of a stream, and how many octets it takes. */
  function Decode(bytes: seq<Byte>): (d: Option<Decoded>)
    ensures d.Some? ==> 2 <= d.value.length <= |bytes|
  {
    match LengthField(bytes)
    case None => None
    case Some(Extent(header, size)) =>
      var first := bytes[0];
      var masked := HasMask(bytes[1]);
      var start := if masked then header + 4 else header;
      if |bytes| < start + size then None else
        var payload := bytes[start..start + size];
        var key := if masked then Some(bytes[header..start]) else None;
        Some(Decoded(
          Frame(Fin(first), Reserved(first), Opcode(first), key,
            if masked then Masked(payload, bytes[header..start]) else payload),
          start + size))
  }

  // ----- sending ---------------------------------------------------------------------------------

  /** The length of a payload in the fewest octets, as the RFC asks. */
  function LengthOctets(size: nat, masked: bool): seq<Byte>
    requires size < 0x8000_0000_0000_0000
  {
    var bit: Byte := if masked then 0x80 else 0;
    if size < 126 then [bit | size as Byte]
    else if size < 65536 then [bit | 126] + BigEndian(size, 2)
    else [bit | 127] + BigEndian(size, 8)
  }

  function FirstByte(f: Frame): Byte
    requires WellFormed(f)
  {
    (if f.fin then 0x80 else 0 as Byte) | (f.reserved << 4) | f.opcode
  }

  function Encode(f: Frame): seq<Byte>
    requires WellFormed(f)
  {
    [FirstByte(f)] + LengthOctets(|f.payload|, f.key.Some?)
    + (match f.key case None => f.payload case Some(key) => key + Masked(f.payload, key))
  }

  /** _send_frame: what is handed to the socket. */
  method SendFrame(payload: seq<Byte>, mask: seq<Byte>) returns (sent: seq<Byte>)
    requires |payload| < 0x8000_0000_0000_0000 && |mask| == 4
    ensures Decode(sent) == Some(Decoded(Frame(true, 0, 1, Some(mask), payload), |sent|))
    ensures sent == Encode(Frame(true, 0, 1, Some(mask), payload))
  {
    hide Masked, Value, BigEndian, Decode;
    var header: seq<Byte> := [0x81];
    var size := |payload|;
    if size < 126 {
      header := header + [0x80 | size as Byte];
    } else if size < 65536 {
      header := header + [0x80 | 126];
      header := header + BigEndian(size, 2);
    } else {
      header := header + [0x80 | 127];
      header := header + BigEndian(size, 8);
    }
    header := header + mask;
    var masked := Masked(payload, mask);
    sent := header + masked;
    ghost var f := Frame(true, 0, 1, Some(mask), payload);
    assert FirstByte(f) == 0x81;
    assert sent == Encode(f);
    DecodeEncoded(f, []);
    assert sent + [] == sent;
  }

  lemma ShortLength(size: nat, bit: Byte)
    requires size < 126 && (bit == 0 || bit == 0x80)
    ensures (bit | size as Byte) & 0x7F == size as Byte && (bit | size as Byte) & 0x80 == bit
    ensures size as Byte != 126 && size as Byte != 127
  {
  }

  lemma EncodedLength(size: nat, masked: bool, first: Byte, rest: seq<Byte>)
    requires size < 0x8000_0000_0000_0000
    ensures var octets := LengthOctets(size, masked);
      && |octets| >= 1 && (HasMask(octets[0]) <==> masked)
      && LengthField([first] + octets + rest) == Some(Extent(1 + |octets|, size))
  {
    var octets := LengthOctets(size, masked);
    var bytes := [first] + octets + rest;
    var bit: Byte := if masked then 0x80 else 0;
    assert bytes[1] == octets[0];
    if size < 126 {
      ShortLength(size, bit);
      ByteOf(size);
    } else if size < 65536 {
      BigEndianValue(size, 2);
      assert bytes[2..4] == BigEndian(size, 2);
    } else {
      BigEndianValue(size, 8);
      assert bytes[2..10] == BigEndian(size, 8);
    }
  }

  lemma FirstOctet(f: Frame)
    requires WellFormed(f)
    ensures Fin(FirstByte(f)) == f.fin && Reserved(FirstByte(f)) == f.reserved && Opcode(FirstByte(f)) == f.opcode
  {
  }

  lemma SliceBetween(a: seq<Byte>, b: seq<Byte>, c: seq<Byte>)
    ensures (a + (b + c))[|a|..|a| + |b|] == b
  {
  }

  lemma SliceOfTail(s: seq<Byte>, a: nat, i: nat, j: nat)
    requires i <= j && a + j <= |s|
    ensures s[a..][i..j] == s[a + i..a + j]
  {
  }

  /** Decoding gives back every frame, whatever follows it in the stream. */
  lemma DecodeEncoded(f: Frame, rest: seq<Byte>)
    requires WellFormed(f)
    ensures Decode(Encode(f) + rest) == Some(Decoded(f, |Encode(f)|))
  {
    hide LengthField, LengthOctets, Masked, Fin, Reserved, Opcode, HasMask, FirstByte, Decode;
    var first := FirstByte(f);
    var octets := LengthOctets(|f.payload|, f.key.Some?);
    var tail := match f.key case None => f.payload case Some(key) => key + Masked(f.payload, key);
    var bytes := [first] + octets + (tail + rest);
    assert Encode(f) + rest == bytes;
    FirstOctet(f);
    EncodedLength(|f.payload|, f.key.Some?, first, tail + rest);
    assert bytes[0] == first && bytes[1] == octets[0];
    match f.key
    case None =>
      DecodePlain(f, [first] + octets, rest);
    case Some(key) =>
      assert key + Masked(f.payload, key) + rest == key + (Masked(f.payload, key) + rest);
      DecodeMasked(f, [first] + octets, rest);
  }

  ghost predicate IsHeader(f: Frame, header: seq<Byte>) {
    && |header| >= 2 && Fin(header[0]) == f.fin && Reserved(header[0]) == f.reserved && Opcode(header[0]) == f.opcode
    && HasMask(header[1]) == f.key.Some?
  }

  lemma DecodePlain(f: Frame, header: seq<Byte>, rest: seq<Byte>)
    requires f.key.None? && IsHeader(f, header)
    requires LengthField(header + (f.payload + rest)) == Some(Extent(|header|, |f.payload|))
    ensures Decode(header + (f.payload + rest)) == Some(Decoded(f, |header| + |f.payload|))
  {
    hide LengthField, Fin, Reserved, Opcode, HasMask, Masked;
    SliceBetween(header, f.payload, rest);
  }

  lemma DecodeMasked(f: Frame, header: seq<Byte>, rest: seq<Byte>)
    requires f.key.Some? && |f.key.value| == 4 && IsHeader(f, header)
    requires LengthField(header + (f.key.value + (Masked(f.payload, f.key.value) + rest)))
      == Some(Extent(|header|, |f.payload|))
    ensures Decode(header + (f.key.value + (Masked(f.payload, f.key.value) + rest)))
      == Some(Decoded(f, |header| + 4 + |f.payload|))
  {
    hide LengthField, Fin, Reserved, Opcode, HasMask, Masked;
    var key, masked := f.key.value, Masked(f.payload, f.key.value);
    MaskedTwice(f.payload, key);
    SliceBetween(header, key, masked + rest);
    SliceBetween(header + key, masked, rest);
    assert header + (key + (masked + rest)) == header + key + (masked + rest);
  }

  // ----- receiving -------------------------------------------------------------------------------

  /** The receiving side of a socket: what the peer still sends before it closes. */
  class Socket {
    var incoming: seq<Byte>

    constructor (stream: seq<Byte>)
      ensures incoming == stream
    {
      incoming := stream;
    }

    /** However the network splits the stream: some bytes, and none only at its end. */
    method Receive(limit: nat) returns (chunk: seq<Byte>)
      requires limit > 0
      modifies this
      ensures |chunk| <= limit && old(incoming) == chunk + incoming
      ensures chunk == [] ==> old(incoming) == []
    {
      if incoming == [] { return []; }
      var n: nat :| 1 <= n <= limit && n <= |incoming| by { assert 1 <= |incoming|; }
      chunk := incoming[..n];
      incoming := incoming[n..];
    }

    /** _read_exact; None is the end of the stream. */
    method ReadExact(size: nat) returns (data: Option<seq<Byte>>)
      modifies this
      ensures if |old(incoming)| >= size
        then data == Some(old(incoming)[..size]) && incoming == old(incoming)[size..]
        else data == None && incoming == []
    {
      var read: seq<Byte> := [];
      while |read| < size
        invariant |read| <= size && old(incoming) == read + incoming
        decreases size - |read|
      {
        var chunk := Receive(size - |read|);
        if chunk == [] { return None; }
        read := read + chunk;
      }
      return Some(read);
    }

    /** The first two octets and the extended length. */
    method ReadHeader() returns (header: Option<(Byte, Byte, nat)>)
      modifies this
      ensures LengthField(old(incoming)).None? ==> header == None && incoming == []
      ensures LengthField(old(incoming)).Some? ==> (
        var extent := LengthField(old(incoming)).value;
        header == Some((old(incoming)[0], old(incoming)[1], extent.size)) && incoming == old(incoming)[extent.header..])
    {
      hide Value;
      ghost var stream := incoming;
      var start := ReadExact(2);
      if start == None { return None; }
      var first, second := start.value[0], start.value[1];
      var size := (second & 0x7F) as nat;
      if size == 126 {
        var octets := ReadExact(2);
        if octets == None { return None; }
        size := Value(octets.value);
        assert octets.value == stream[2..4] && incoming == stream[4..];
      } else if size == 127 {
        var octets := ReadExact(8);
        if octets == None { return None; }
        size := Value(octets.value);
        assert octets.value == stream[2..10] && incoming == stream[10..];
      }
      return Some((first, second, size));
    }

    /** The masking key, if there is one, and the payload, unmasked. */
    method ReadPayload(masked: bool, size: nat) returns (payload: Option<seq<Byte>>)
      modifies this
      ensures var start := if masked then 4 else 0;
        if |old(incoming)| < start + size then payload == None && incoming == []
        else
          && incoming == old(incoming)[start + size..]
          && payload == Some(
            var octets := old(incoming)[start..start + size];
            if masked then Masked(octets, old(incoming)[..4]) else octets)
    {
      hide Masked;
      ghost var stream := incoming;
      var mask: seq<Byte> := [];
      if masked {
        var key := ReadExact(4);
        if key == None { return None; }
        mask := key.value;
      }
      var body := ReadExact(size);
      if body == None { return None; }
      ghost var start := if masked then 4 else 0;
      assert body.value == stream[start..start + size] && incoming == stream[start + size..];
      return Some(if mask != [] then Masked(body.value, mask) else body.value);
    }

    /** _recv_frame, up to the decoding of the text. */
    method ReceiveFrame() returns (r: Received)
      modifies this
      ensures (r, incoming) == ReceivedFrom(old(incoming))
      decreases |incoming|
    {
      hide Masked, LengthField, HasMask, Opcode, Fin, Reserved;
      ghost var stream := incoming;
      var header := ReadHeader();
      if header == None { return Closed; }
      var (first, second, size) := header.value;
      ghost var at := LengthField(stream).value.header;
      var payload := ReadPayload(HasMask(second), size);
      if payload == None { return Closed; }
      PayloadDecoded(stream, at);
      assert incoming == stream[Decode(stream).value.length..];
      var opcode := Opcode(first);
      if opcode == 8 { return Closed; }
      if opcode == 9 {
        r := ReceiveFrame();
        return;
      }
      return Message(opcode, payload.value);
    }
  }

  lemma PayloadDecoded(stream: seq<Byte>, at: nat)
    requires LengthField(stream).Some? && at == LengthField(stream).value.header
    ensures var size, masked := LengthField(stream).value.size, HasMask(stream[1]);
      var start := if masked then 4 else 0;
      && (Decode(stream).Some? <==> |stream[at..]| >= start + size)
      && (Decode(stream).Some? ==> (
        && Decode(stream).value.length == at + start + size
        && Decode(stream).value.frame.opcode == Opcode(stream[0])
        && Decode(stream).value.frame.payload == (
          var octets := stream[at..][start..start + size];
          if masked then Masked(octets, stream[at..][..4]) else octets)))
  {
    hide Masked, LengthField, HasMask, Opcode, Fin, Reserved;
    var Extent(_, size) := LengthField(stream).value;
    var start := if HasMask(stream[1]) then 4 else 0;
    if |stream| >= at + start + size {
      SliceOfTail(stream, at, start, start + size);
      if HasMask(stream[1]) { SliceOfTail(stream, at, 0, 4); }
    }
  }

  datatype Received = Message(opcode: Byte, payload: seq<Byte>) | Closed

  const CLOSE: Byte := 8
  const PING: Byte := 9

  /** What the client gets from a stream, and what it leaves in it. */
  function ReceivedFrom(stream: seq<Byte>): (Received, seq<Byte>)
    decreases |stream|
  {
    match Decode(stream)
    case None => (Closed, [])
    case Some(Decoded(f, n)) =>
      if f.opcode == CLOSE then (Closed, stream[n..])
      else if f.opcode == PING then ReceivedFrom(stream[n..])
      else (Message(f.opcode, f.payload), stream[n..])
  }

  function EncodeAll(frames: seq<Frame>): seq<Byte>
    requires forall f | f in frames :: WellFormed(f)
  {
    if frames == [] then [] else Encode(frames[0]) + EncodeAll(frames[1..])
  }

  /** Pings are passed over, and exactly one other frame is taken off the stream. */
  lemma {:induction false} PingsPassedOver(pings: seq<Frame>, f: Frame, rest: seq<Byte>)
    requires forall ping | ping in pings :: WellFormed(ping) && ping.opcode == PING
    requires WellFormed(f) && f.opcode != PING
    ensures ReceivedFrom(EncodeAll(pings) + Encode(f) + rest)
      == (if f.opcode == CLOSE then Closed else Message(f.opcode, f.payload), rest)
  {
    hide Decode, Encode;
    if pings == [] {
      assert EncodeAll(pings) + Encode(f) + rest == Encode(f) + rest;
      DecodeEncoded(f, rest);
      assert (Encode(f) + rest)[|Encode(f)|..] == rest;
    } else {
      var others := EncodeAll(pings[1..]) + Encode(f) + rest;
      var stream := Encode(pings[0]) + others;
      assert EncodeAll(pings) + Encode(f) + rest == stream;
      DecodeEncoded(pings[0], others);
      assert stream[|Encode(pings[0])|..] == others;
      PingsPassedOver(pings[1..], f, rest);
    }
  }
}
