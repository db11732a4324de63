/**
Conversion between a message and the packet that carries it: four size bytes, four id bytes, both
big-endian, then the body. Numbers are 32-bit, so the size of a body is its length modulo 2^32.
*/
module Packets {

  type byte = bv8

  type Word = bv32

  datatype Error = OutOfRange

  datatype Result<T> = Ok(value: T) | Err(error: Error)

  datatype Message = Message(size: Word, id: Word, body: seq<byte>)

  const RANGE: nat := 0x1_0000_0000

  const HEADER: nat := 8

  /** The source's cast of a length to an unsigned int. */
  function Size(body: seq<byte>): Word {
    (|body| % RANGE) as Word
  }

  function Number(w: Word): nat {
    w as nat
  }

  // ----- Big-endian bytes

  function Digit(b: byte): nat {
    b as nat
  }

  /** The value that four bytes denote, most significant first. */
  function Value(b: seq<byte>): nat
    requires |b| == 4
  {
    0x100_0000 * Digit(b[0]) + 0x1_0000 * Digit(b[1]) + 0x100 * Digit(b[2]) + Digit(b[3])
  }

  function LowByte(w: Word): byte {
    (w & 0xFF) as byte
  }

  function Bytes(w: Word): seq<byte> {
    [LowByte(w >> 24), LowByte(w >> 16), LowByte(w >> 8), LowByte(w)]
  }

  function Shifted(n: Word, b: byte): Word {
    (n << 8) | b as Word
  }

  function Assembled(b: seq<byte>): Word
    requires |b| == 4
  {
    Shifted(Shifted(Shifted(b[0] as Word, b[1]), b[2]), b[3])
  }

  lemma {:induction false} FlatShiftsAreValue(b0: byte, b1: byte, b2: byte, b3: byte)
    ensures ((b0 as Word << 24) | (b1 as Word << 16) | (b2 as Word << 8) | b3 as Word) as nat
      == 0x100_0000 * (b0 as nat) + 0x1_0000 * (b1 as nat) + 0x100 * (b2 as nat) + b3 as nat
  {
  }

  lemma {:induction false} ShiftsFlatten(b0: byte, b1: byte, b2: byte, b3: byte)
    ensures Shifted(Shifted(Shifted(b0 as Word, b1), b2), b3)
      == (b0 as Word << 24) | (b1 as Word << 16) | (b2 as Word << 8) | b3 as Word
  {
  }

  lemma {:induction false} ShiftsAreValue(b0: byte, b1: byte, b2: byte, b3: byte)
    ensures Number(Shifted(Shifted(Shifted(b0 as Word, b1), b2), b3))
      == 0x100_0000 * Digit(b0) + 0x1_0000 * Digit(b1) + 0x100 * Digit(b2) + Digit(b3)
  {
    hide Shifted;
    FlatShiftsAreValue(b0, b1, b2, b3);
    ShiftsFlatten(b0, b1, b2, b3);
  }

  lemma {:induction false} ShiftsKeepBytes(b0: byte, b1: byte, b2: byte, b3: byte)
    ensures Bytes(Shifted(Shifted(Shifted(b0 as Word, b1), b2), b3)) == [b0, b1, b2, b3]
  {
  }

  /** The shifts and masks write a number in base 256 and read it back: Bytes and Assembled are inverses. */
  lemma {:induction false} AssembledIsValue(b: seq<byte>)
    requires |b| == 4
    ensures Number(Assembled(b)) == Value(b) && Bytes(Assembled(b)) == b
  {
    hide Shifted, Bytes, Number, Digit;
    ShiftsAreValue(b[0], b[1], b[2], b[3]);
    ShiftsKeepBytes(b[0], b[1], b[2], b[3]);
  }

  lemma {:induction false} AssembledOfBytes(w: Word)
    ensures Assembled(Bytes(w)) == w && Value(Bytes(w)) == Number(w)
  {
    hide Value, Number;
    assert Assembled(Bytes(w)) == w;
    AssembledIsValue(Bytes(w));
  }

  lemma {:induction false} AppendZero(w: Word)
    requires w < 0x8000_0000
    ensures (w << 1) as nat == 2 * (w as nat)
  {
  }

  lemma {:induction false} AppendOne(w: Word)
    requires w < 0x8000_0000
    ensures ((w << 1) | 1) as nat == 2 * (w as nat) + 1
  {
  }

  lemma {:induction false} SmallWord(w: Word)
    requires Number(w) < 0x8000_0000
    ensures w < 0x8000_0000
  {
  }

  lemma {:induction false} SomeWord(n: nat) returns (w: Word)
    requires n < RANGE
    ensures Number(w) == n
  {
    if n == 0 {
      w := 0;
    } else {
      var half := SomeWord(n / 2);
      SmallWord(half);
      AppendZero(half);
      AppendOne(half);
      w := if n % 2 == 0 then half << 1 else (half << 1) | 1;
    }
  }

  lemma {:induction false} WordIsUnique(n: nat, w: Word)
    requires n < RANGE && Number(w) == n
    ensures n as Word == w
  {
  }

  /** The cast keeps the length modulo 2^32. */
  lemma {:induction false} SizeIsLength(body: seq<byte>)
    ensures Number(Size(body)) == |body| % RANGE
  {
    var n := |body| % RANGE;
    var w := SomeWord(n);
    WordIsUnique(n, w);
  }

  // ----- Sending

  method ConvertSendMsg(id: Word, body: seq<byte>) returns (packet: seq<byte>)
    ensures packet == Bytes(Size(body)) + Bytes(id) + body
  {
    var size := Size(body);
    packet := [];
    packet := packet + [LowByte(size >> 24)];
    packet := packet + [LowByte(size >> 16)];
    packet := packet + [LowByte(size >> 8)];
    packet := packet + [LowByte(size)];
    packet := packet + [LowByte(id >> 24)];
    packet := packet + [LowByte(id >> 16)];
    packet := packet + [LowByte(id >> 8)];
    packet := packet + [LowByte(id)];
    packet := packet + body;
  }

  function Sent(id: Word, body: seq<byte>): seq<byte> {
    Bytes(Size(body)) + Bytes(id) + body
  }

  // ----- Receiving

  function Min(a: nat, b: nat): nat {
    if b < a then b else a
  }

  function Received(buffer: seq<byte>): Result<Message> {
    if |buffer| < HEADER then Err(OutOfRange)
    else
      var size, id := Assembled(buffer[..4]), Assembled(buffer[4..HEADER]);
      Ok(Message(size, id, buffer[HEADER..][..Min(Number(size), (|buffer| - HEADER) % RANGE)]))
  }

  /** Moves the first four bytes out of the buffer, one at a time; a byte that is not there is an exception. */
  method TakeWord(buffer: seq<byte>) returns (r: Result<Word>, rest: seq<byte>)
    ensures r == if |buffer| < 4 then Err(OutOfRange) else Ok(Assembled(buffer[..4]))
    ensures |buffer| >= 4 ==> rest == buffer[4..]
  {
    rest := buffer;
    var taken: seq<byte> := [];
    for k := 0 to 4
      invariant |taken| == k <= |buffer| && taken == buffer[..k] && rest == buffer[k..]
    {
      if rest == [] {
        return Err(OutOfRange), rest;
      }
      taken := taken + [rest[0]];
      rest := rest[1..];
    }
    var n := taken[0] as Word;
    n := (n << 8) | taken[1] as Word;
    n := (n << 8) | taken[2] as Word;
    n := (n << 8) | taken[3] as Word;
    r := Ok(n);
  }

  method ConvertReceiveMsg(buffer: seq<byte>) returns (r: Result<Message>)
    ensures r == Received(buffer)
  {
    var size, rest := TakeWord(buffer);
    if size.Err? {
      return Err(size.error);
    }
    var id, body := TakeWord(rest);
    if id.Err? {
      return Err(id.error);
    }
    assert buffer[4..HEADER] == rest[..4] && body == buffer[HEADER..];
    var kept := Min(Number(size.value), |body| % RANGE);
    r := Ok(Message(size.value, id.value, body[..kept]));
  }

  // ----- Both together

  /** How much of the body of a sent message comes back: both lengths are cast to 32 bits. */
  function Returned(body: seq<byte>, padding: seq<byte>): nat {
    Min(|body| % RANGE, (|body| + |padding|) % RANGE)
  }

  /**
  Every message comes back with its id and the size of its body modulo 2^32, whatever follows the packet in
  the buffer. Its body comes back whole exactly when the buffer's length modulo 2^32 has room for it, as it
  has whenever packet and padding are shorter than 2^32 bytes.
  */
  lemma {:induction false} ReceiveOfSend(id: Word, body: seq<byte>, padding: seq<byte>)
    ensures Returned(body, padding) <= |body|
    ensures Received(Sent(id, body) + padding) == Ok(Message(Size(body), id, body[..Returned(body, padding)]))
    ensures Number(Size(body)) == |body| % RANGE
    ensures body[..Returned(body, padding)] == body <==> |body| <= (|body| + |padding|) % RANGE
  {
    hide Assembled, Bytes, Number, Size, Value;
    var buffer := Sent(id, body) + padding;
    assert |Bytes(Size(body))| == 4 && |Bytes(id)| == 4 by { FourBytes(Size(body)); FourBytes(id); }
    assert buffer[..4] == Bytes(Size(body)) && buffer[4..HEADER] == Bytes(id) && buffer[HEADER..] == body + padding;
    AssembledOfBytes(Size(body));
    AssembledOfBytes(id);
    SizeIsLength(body);
    assert (body + padding)[..Returned(body, padding)] == body[..Returned(body, padding)];
  }

  lemma {:induction false} FourBytes(w: Word)
    ensures |Bytes(w)| == 4
  {
  }

  lemma {:induction false} SizeBeginsPacket(id: Word, body: seq<byte>)
    ensures |Sent(id, body)| == HEADER + |body| && Sent(id, body)[..4] == Bytes(Size(body))
  {
  }

  lemma {:induction false} CastBack(w: Word)
    ensures Number(w) < RANGE && Number(w) as Word == w
  {
  }

  /** Only a buffer shorter than a header is refused. */
  lemma {:induction false} RefusedExactly(buffer: seq<byte>)
    ensures Received(buffer) == Err(OutOfRange) <==> |buffer| < 8
  {
  }

  /** A sent packet begins a buffer exactly when it has the buffer's header and the bytes that follow it. */
  lemma {:induction false} SentBegins(id: Word, body: seq<byte>, buffer: seq<byte>)
    requires |buffer| >= HEADER && body <= buffer[HEADER..] && buffer[4..HEADER] == Bytes(id)
    ensures Sent(id, body) <= buffer <==> Bytes(Size(body)) == buffer[..4]
  {
    hide Bytes, Size;
    SizeBeginsPacket(id, body);
    FourBytes(Size(body));
    if Bytes(Size(body)) == buffer[..4] {
      assert buffer == buffer[..4] + buffer[4..HEADER] + buffer[HEADER..];
    }
    if Sent(id, body) <= buffer {
      assert Sent(id, body)[..4] == buffer[..4];
    }
  }

  lemma {:induction false} SizeIsValue(body: seq<byte>, b: seq<byte>)
    requires |b| == 4 && |body| < RANGE
    ensures Bytes(Size(body)) == b <==> |body| == Value(b)
  {
    hide Bytes, Assembled, Value, Size, Number;
    SizeIsLength(body);
    AssembledIsValue(b);
    AssembledOfBytes(Size(body));
    if |body| == Value(b) {
      CastBack(Size(body));
      CastBack(Assembled(b));
    }
  }

  lemma {:induction false} ValueInRange(b: seq<byte>)
    requires |b| == 4
    ensures Value(b) < RANGE
  {
  }

  /**
  What is received has the size, id and body that the buffer's bytes denote, and it sends again as the front
  of the buffer exactly when the rest of the buffer, its length cast to 32 bits, holds as much as the header says.
  */
  lemma {:induction false} SendOfReceive(buffer: seq<byte>)
    requires |buffer| >= HEADER
    ensures Received(buffer).Ok?
    ensures var m := Received(buffer).value;
      && Number(m.size) == Value(buffer[..4]) && Number(m.id) == Value(buffer[4..HEADER]) && m.body <= buffer[HEADER..]
      && (Sent(m.id, m.body) <= buffer <==> Value(buffer[..4]) <= (|buffer| - HEADER) % RANGE)
  {
    hide Assembled, Bytes, Value, Size, Sent, Number;
    var m := Received(buffer).value;
    AssembledIsValue(buffer[..4]);
    AssembledIsValue(buffer[4..HEADER]);
    ValueInRange(buffer[..4]);
    SentBegins(m.id, m.body, buffer);
    SizeIsValue(m.body, buffer[..4]);
  }
}
