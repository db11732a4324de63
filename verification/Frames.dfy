/**
The Send and Receive loops of the TCP sockets. The operating system decides how much each call of send and
recv moves: a wire carries the bytes still to come and the grants of the calls still to come. A call
without a grant moves all it can. The end of the incoming bytes is the peer's orderly shutdown.
*/
module Frames {

  import opened Packets

  /** One call moves at most limit + 1 bytes, or fails. */
  datatype Grant = Chunk(limit: nat) | Fail

  datatype Wire = Wire(incoming: seq<byte>, grants: seq<Grant>)

  /** Undefined: bytes would be read or written outside the caller's buffer, or an int would overflow. */
  datatype Outcome = Returned(count: int) | Undefined

  /** Progress is counted in an int, lengths in a 64-bit size_t. */
  const INT_MAX: nat := 0x7FFF_FFFF

  const SIZE_RANGE: nat := 0x1_0000_0000_0000_0000

  function FailuresIn(grants: seq<Grant>): nat {
    if grants == [] then 0 else FailuresIn(grants[1..]) + if grants[0].Fail? then 1 else 0
  }

  /** The calls that failed between two states of a wire; a wire only loses grants from its front. */
  function Failures(before: Wire, after: Wire): int {
    FailuresIn(before.grants) - FailuresIn(after.grants)
  }

  function Later(grants: seq<Grant>): seq<Grant> {
    if grants == [] then [] else grants[1..]
  }

  /** How many bytes the next call moves of those wanted and available; -1 when it fails. */
  function Moved(grants: seq<Grant>, wanted: nat, available: nat): (n: int)
    ensures -1 <= n <= wanted && n <= available
    ensures n == -1 <==> grants != [] && grants[0].Fail?
    ensures n == 0 ==> wanted == 0 || available == 0
  {
    if grants != [] && grants[0].Fail? then -1
    else
      var most := Min(wanted, available);
      if grants == [] then most else Min(most, grants[0].limit + 1)
  }

  function Taken(wire: Wire, n: int): Wire
    requires n <= |wire.incoming|
  {
    Wire(wire.incoming[Max(n)..], Later(wire.grants))
  }

  function Max(n: int): nat {
    if n < 0 then 0 else n
  }

  // ----- The length field

  /** A char is signed: a byte from 128 on becomes a word with its upper bits set. */
  function SignExtended(b: byte): Word {
    if b < 128 then b as Word else 0xFFFF_FF00 | b as Word
  }

  function LengthWord(b0: byte, b1: byte, b2: byte, b3: byte): Word {
    var n := SignExtended(b0);
    var n := (n << 8) | SignExtended(b1);
    var n := (n << 8) | SignExtended(b2);
    (n << 8) | SignExtended(b3)
  }

  /** The length that Receive reads from the first four bytes of its buffer. */
  function DecodedLength(buffer: seq<byte>): nat
    requires |buffer| >= 4
  {
    Number(LengthWord(buffer[0], buffer[1], buffer[2], buffer[3]))
  }

  /** Each byte from 128 on lies below bytes that are all ones. */
  predicate Harmless(b0: byte, b1: byte, b2: byte, b3: byte) {
    && (b1 >= 128 ==> b0 == 0xFF)
    && (b2 >= 128 ==> b0 == b1 == 0xFF)
    && (b3 >= 128 ==> b0 == b1 == b2 == 0xFF)
  }

  predicate SignHarmless(b: seq<byte>)
    requires |b| >= 4
  {
    Harmless(b[0], b[1], b[2], b[3])
  }

  function Filled(b: byte, below: bool): byte {
    if below then 0xFF else b
  }

  /** A byte from 128 on fills all bytes above it. */
  lemma {:induction false} UpperBytes(b0: byte, b1: byte, b2: byte, b3: byte)
    ensures var w := LengthWord(b0, b1, b2, b3);
      && LowByte(w >> 24) == Filled(b0, b1 >= 128 || b2 >= 128 || b3 >= 128)
      && LowByte(w >> 16) == Filled(b1, b2 >= 128 || b3 >= 128)
  {
  }

  lemma {:induction false} LowerBytes(b0: byte, b1: byte, b2: byte, b3: byte)
    ensures var w := LengthWord(b0, b1, b2, b3);
      LowByte(w >> 8) == Filled(b2, b3 >= 128) && LowByte(w) == b3
  {
  }

  lemma {:induction false} FilledHarmless(b0: byte, b1: byte, b2: byte, b3: byte)
    ensures var c0 := Filled(b0, b1 >= 128 || b2 >= 128 || b3 >= 128);
      var c1, c2 := Filled(b1, b2 >= 128 || b3 >= 128), Filled(b2, b3 >= 128);
      && (c0 == b0 && c1 == b1 && c2 == b2 <==> Harmless(b0, b1, b2, b3))
      && b0 <= c0 && b1 <= c1 && b2 <= c2
  {
  }

  lemma {:induction false} BytesCompare(a: byte, b: byte)
    requires a <= b
    ensures Digit(a) <= Digit(b) && (Digit(a) == Digit(b) <==> a == b)
  {
  }

  lemma {:induction false} WordBytes(w: Word)
    ensures Number(w) == 0x100_0000 * Digit(LowByte(w >> 24)) + 0x1_0000 * Digit(LowByte(w >> 16))
      + 0x100 * Digit(LowByte(w >> 8)) + Digit(LowByte(w))
  {
    hide LowByte, Number, Digit;
    AssembledOfBytes(w);
  }

  lemma {:induction false} DigitsCompare(a0: nat, a1: nat, a2: nat, b0: nat, b1: nat, b2: nat, low: nat)
    requires a0 <= b0 && a1 <= b1 && a2 <= b2
    ensures var a := 0x100_0000 * a0 + 0x1_0000 * a1 + 0x100 * a2 + low;
      var b := 0x100_0000 * b0 + 0x1_0000 * b1 + 0x100 * b2 + low;
      a <= b && (a == b <==> a0 == b0 && a1 == b1 && a2 == b2)
  {
  }

  lemma {:induction false} LengthValue(b0: byte, b1: byte, b2: byte, b3: byte)
    ensures var c0 := Filled(b0, b1 >= 128 || b2 >= 128 || b3 >= 128);
      var c1, c2 := Filled(b1, b2 >= 128 || b3 >= 128), Filled(b2, b3 >= 128);
      Number(LengthWord(b0, b1, b2, b3))
        == 0x100_0000 * Digit(c0) + 0x1_0000 * Digit(c1) + 0x100 * Digit(c2) + Digit(b3)
  {
    hide LengthWord, LowByte, Filled, Number, Digit;
    WordBytes(LengthWord(b0, b1, b2, b3));
    UpperBytes(b0, b1, b2, b3);
    LowerBytes(b0, b1, b2, b3);
  }

  /** Sign extension only sets bits, and all bits stay as they were exactly when it is harmless. */
  lemma {:induction false} LengthCompares(b0: byte, b1: byte, b2: byte, b3: byte)
    ensures var v := 0x100_0000 * Digit(b0) + 0x1_0000 * Digit(b1) + 0x100 * Digit(b2) + Digit(b3);
      var n := Number(LengthWord(b0, b1, b2, b3));
      v <= n && (v == n <==> Harmless(b0, b1, b2, b3))
  {
    hide LengthWord, Filled, Harmless, Number, Digit;
    LengthValue(b0, b1, b2, b3);
    FilledHarmless(b0, b1, b2, b3);
    var c0 := Filled(b0, b1 >= 128 || b2 >= 128 || b3 >= 128);
    var c1, c2 := Filled(b1, b2 >= 128 || b3 >= 128), Filled(b2, b3 >= 128);
    BytesCompare(b0, c0);
    BytesCompare(b1, c1);
    BytesCompare(b2, c2);
    DigitsCompare(Digit(b0), Digit(b1), Digit(b2), Digit(c0), Digit(c1), Digit(c2), Digit(b3));
  }

  /** The length read is right exactly when the sign extensions do no harm, and otherwise too large. */
  lemma {:induction false} DecodedLengthExactly(b: seq<byte>)
    requires |b| == 4
    ensures DecodedLength(b) == Value(b) <==> SignHarmless(b)
    ensures Value(b) <= DecodedLength(b) < RANGE
  {
    hide LengthWord, Harmless, Number;
    LengthCompares(b[0], b[1], b[2], b[3]);
    CastBack(LengthWord(b[0], b[1], b[2], b[3]));
  }

  // ----- Receiving

  /** What a call of Receive leaves behind. */
  datatype Reading = Reading(outcome: Outcome, buffer: seq<byte>, wire: Wire)

  /** How far a count of stored bytes can go. */
  function Room(buffer: seq<byte>): nat {
    Min(|buffer|, INT_MAX)
  }

  predicate Fits(buffer: seq<byte>, total: int, n: int) {
    n > 0 ==> 0 <= total && total + n <= Room(buffer)
  }

  function Stored(buffer: seq<byte>, total: int, incoming: seq<byte>, n: int): (r: seq<byte>)
    requires n <= |incoming| && Fits(buffer, total, n)
    ensures |r| == |buffer| && (n <= 0 ==> r == buffer)
  {
    if n <= 0 then buffer else buffer[..total] + incoming[..n] + buffer[total + n..]
  }

  /** Size_t arithmetic: the difference wraps, and a negative count compares as a huge one. */
  function Wanted(size: nat, total: int): nat {
    (size - total) % SIZE_RANGE
  }

  predicate Unfilled(size: nat, total: int) {
    total % SIZE_RANGE < size
  }

  /** The loop that reads the body. */
  function ReadBody(buffer: seq<byte>, wire: Wire, total: int, size: nat, fully: bool): Reading
    decreases |wire.incoming| + |wire.grants|
  {
    var n := Moved(wire.grants, Wanted(size, total), |wire.incoming|);
    if n == 0 then Reading(Returned(total), buffer, Taken(wire, n))
    else if !Fits(buffer, total, n) then Reading(Undefined, buffer, wire)
    else
      var buffer', wire', total' := Stored(buffer, total, wire.incoming, n), Taken(wire, n), total + n;
      if fully && Unfilled(size, total') then ReadBody(buffer', wire', total', size, fully)
      else Reading(Returned(total'), buffer', wire')
  }

  function Receiving(buffer: seq<byte>, wire: Wire, connected: bool, fully: bool): Reading {
    if buffer == [] then Reading(Returned(0), buffer, wire)
    else if !connected then Reading(Returned(-1), buffer, wire)
    else
      var n := Moved(wire.grants, 4, |wire.incoming|);
      if n == 0 then Reading(Returned(0), buffer, Taken(wire, 0))
      else if |buffer| < 4 then Reading(Undefined, buffer, wire)
      else
        var buffer1, wire1 := Stored(buffer, 0, wire.incoming, n), Taken(wire, n);
        var size := if DecodedLength(buffer1) > 0 then DecodedLength(buffer1) else |buffer|;
        var m := Moved(wire1.grants, 4, |wire1.incoming|);
        if m == 0 then Reading(Returned(0), buffer1, Taken(wire1, 0))
        else if !Fits(buffer1, n, m) then Reading(Undefined, buffer1, wire1)
        else ReadBody(Stored(buffer1, n, wire1.incoming, m), Taken(wire1, m), n + m, size, fully)
  }

  // ----- The socket

  class Connection {
    var connected: bool
    var incoming: seq<byte>
    var outgoing: seq<byte>
    var grants: seq<Grant>

    ghost function Line(): Wire
      reads this
    {
      Wire(incoming, grants)
    }

    method Recv(buffer: array<byte>, total: int, wanted: nat) returns (n: int)
      requires Fits(buffer[..], total, Moved(grants, wanted, |incoming|))
      modifies this`incoming, this`grants, buffer
      ensures n == Moved(old(grants), wanted, |old(incoming)|) <= |old(incoming)|
      ensures buffer[..] == Stored(old(buffer[..]), total, old(incoming), n) && Line() == Taken(old(Line()), n)
    {
      n := Moved(grants, wanted, |incoming|);
      var moved := incoming[..Max(n)];
      for i := 0 to |moved|
        invariant incoming == old(incoming) && grants == old(grants)
        invariant buffer[..]
          == if i == 0 then old(buffer[..]) else old(buffer[..total]) + moved[..i] + old(buffer[total + i..])
      {
        buffer[total + i] := moved[i];
      }
      incoming, grants := incoming[Max(n)..], Later(grants);
    }

    method Receive(buffer: array<byte>, fully: bool) returns (outcome: Outcome)
      modifies this`incoming, this`grants, buffer
      ensures Reading(outcome, buffer[..], Line()) == Receiving(old(buffer[..]), old(Line()), connected, fully)
    {
      hide ReadBody, Stored, LengthWord, Number, Moved, Taken;
      if buffer.Length == 0 {
        return Returned(0);
      }
      if !connected {
        return Returned(-1);
      }
      var total := 0;
      var size := buffer.Length;
      if buffer.Length < 4 && Moved(grants, 4, |incoming|) != 0 {
        return Undefined;
      }
      var n := Recv(buffer, total, 4);
      if n == 0 {
        return Returned(0);
      }
      var length := Number(LengthWord(buffer[0], buffer[1], buffer[2], buffer[3]));
      if length > 0 {
        size := length;
      }
      total := total + n;
      if !Fits(buffer[..], total, Moved(grants, 4, |incoming|)) {
        return Undefined;
      }
      n := Recv(buffer, total, 4);
      if n == 0 {
        return Returned(0);
      }
      total := total + n;
      outcome := ReceiveBody(buffer, total, size, fully);
    }

    method ReceiveBody(buffer: array<byte>, start: int, size: nat, fully: bool) returns (outcome: Outcome)
      modifies this`incoming, this`grants, buffer
      ensures Reading(outcome, buffer[..], Line()) == ReadBody(old(buffer[..]), old(Line()), start, size, fully)
    {
      hide Stored, Wanted, Unfilled;
      var total := start;
      while true
        invariant ReadBody(buffer[..], Line(), total, size, fully)
          == ReadBody(old(buffer[..]), old(Line()), start, size, fully)
        decreases |incoming| + |grants|
      {
        if !Fits(buffer[..], total, Moved(grants, Wanted(size, total), |incoming|)) {
          return Undefined;
        }
        var n := Recv(buffer, total, Wanted(size, total));
        if n == 0 {
          return Returned(total);
        }
        total := total + n;
        if !(fully && Unfilled(size, total)) {
          return Returned(total);
        }
      }
    }

    method Send(data: array<byte>) returns (result: SendResult)
      modifies this`outgoing, this`grants
      ensures data.Length == 0 || !connected ==> result == Failed && outgoing == old(outgoing) && grants == old(grants)
      ensures data.Length > 0 && connected ==>
        var sent := Sending(data.Length, 0, old(grants));
        result == sent.result && grants == sent.grants && outgoing == old(outgoing) + data[..sent.count]
    {
      if data.Length == 0 || !connected {
        return Failed;
      }
      var total := 0;
      while true
        invariant 0 <= total < data.Length
        invariant outgoing == old(outgoing) + data[..total]
        invariant Sending(data.Length, total, grants) == Sending(data.Length, 0, old(grants))
        decreases data.Length - total
      {
        var n := Moved(grants, data.Length - total, data.Length - total);
        if n >= 0 {
          assert data[..total + n] == data[..total] + data[total..total + n];
          assert old(outgoing) + data[..total] + data[total..total + n] == old(outgoing) + data[..total + n];
          outgoing := outgoing + data[total..total + n];
        }
        grants := Later(grants);
        if n < 0 {
          return Failed;
        }
        if total + n > INT_MAX {
          return Uncounted;
        }
        total := total + n;
        if total >= data.Length {
          return AllSent;
        }
      }
    }
  }

  /** Uncounted: the count of sent bytes left the range of an int, after which nothing is defined. */
  datatype SendResult = AllSent | Failed | Uncounted

  datatype Delivery = Delivery(count: nat, result: SendResult, grants: seq<Grant>)

  function Sending(size: nat, total: nat, grants: seq<Grant>): (d: Delivery)
    requires total < size
    ensures total <= d.count <= size
    decreases size - total
  {
    var n := Moved(grants, size - total, size - total);
    if n < 0 then Delivery(total, Failed, Later(grants))
    else if total + n > INT_MAX then Delivery(total + n, Uncounted, Later(grants))
    else if total + n < size then Sending(size, total + n, Later(grants))
    else Delivery(total + n, AllSent, Later(grants))
  }

  /**
  Send reports success exactly when no call failed and the size can be counted, and then all of the data went
  out once; a failed call leaves less than all of it.
  */
  lemma {:induction false} SendsExactly(size: nat, grants: seq<Grant>)
    requires size > 0
    ensures var d := Sending(size, 0, grants);
      && (d.result == AllSent <==> size <= 0x7FFF_FFFF && FailuresIn(grants) == FailuresIn(d.grants))
      && (d.result == Failed <==> FailuresIn(grants) == FailuresIn(d.grants) + 1)
      && (d.result == AllSent ==> d.count == size)
      && (d.result == Failed ==> d.count < size)
      && (d.result == Uncounted ==> INT_MAX < d.count <= size)
  {
    SendsFrom(size, 0, grants);
  }

  lemma {:induction false} SendsFrom(size: nat, total: nat, grants: seq<Grant>)
    requires total < size && total <= INT_MAX
    ensures var d := Sending(size, total, grants);
      && (d.result == AllSent ==> d.count == size <= INT_MAX)
      && (d.result == Failed ==> total <= d.count < size)
      && (d.result == Uncounted ==> INT_MAX < d.count <= size)
      && FailuresIn(grants) == FailuresIn(d.grants) + if d.result == Failed then 1 else 0
    decreases size - total
  {
    var n := Moved(grants, size - total, size - total);
    if 0 <= n && total + n <= INT_MAX && total + n < size {
      SendsFrom(size, total + n, Later(grants));
    }
  }

  // ----- The body loop

  lemma {:induction false} SecondOver(front: seq<byte>, between: seq<byte>, last: seq<byte>, bytes: seq<byte>)
    requires |bytes| == |between|
    ensures var s, at := front + (between + last), |front|;
      s[..at] + bytes + s[at + |bytes|..] == front + (bytes + last)
  {
    var s, at := front + (between + last), |front|;
    assert s[..at] == front && s[at + |bytes|..] == last;
  }

  lemma {:induction false} StoredPlainly(buffer: seq<byte>, total: nat, incoming: seq<byte>, n: nat)
    requires n <= |incoming| && total + n <= Room(buffer)
    ensures Stored(buffer, total, incoming, n) == buffer[..total] + incoming[..n] + buffer[total + n..]
  {
  }

  lemma {:induction false} SplitAt(s: seq<byte>, i: nat, j: nat)
    requires i <= j <= |s|
    ensures s[i..] == s[i..j] + s[j..] && s[..j] == s[..i] + s[i..j] && s[i..][..j - i] == s[i..j]
  {
  }

  lemma {:induction false} Regrouped(a: seq<byte>, b: seq<byte>, c: seq<byte>, d: seq<byte>)
    ensures a + b + (c + d) == (a + b) + c + d && a + (b + c) + d == (a + b) + (c + d)
  {
  }

  lemma {:induction false} StoredTwice(buffer: seq<byte>, total: nat, incoming: seq<byte>, n: nat, k: nat)
    requires n <= k <= |incoming| && total + k <= Room(buffer)
    ensures Stored(Stored(buffer, total, incoming, n), total + n, incoming[n..], k - n)
      == Stored(buffer, total, incoming, k)
  {
    hide Stored;
    var front, last := buffer[..total] + incoming[..n], buffer[total + k..];
    var between, bytes := buffer[total + n..total + k], incoming[n..k];
    StoredPlainly(buffer, total, incoming, n);
    StoredPlainly(buffer, total, incoming, k);
    StoredPlainly(Stored(buffer, total, incoming, n), total + n, incoming[n..], k - n);
    SplitAt(buffer, total + n, total + k);
    SplitAt(incoming, n, k);
    SecondOver(front, between, last, bytes);
    Regrouped(buffer[..total], incoming[..n], bytes, last);
  }

  lemma {:induction false} PlainCounts(size: nat, total: nat)
    requires total <= size < SIZE_RANGE
    ensures Wanted(size, total) == size - total && (Unfilled(size, total) <==> total < size)
  {
  }

  lemma {:induction false} NegativeCount(size: nat)
    requires size < SIZE_RANGE
    ensures !Unfilled(size, -1)
  {
  }

  /** One round of the loop in plain arithmetic. */
  lemma {:induction false} BodyStep(buffer: seq<byte>, wire: Wire, total: nat, size: nat)
    requires total <= size < SIZE_RANGE
    ensures var n := Moved(wire.grants, size - total, |wire.incoming|);
      ReadBody(buffer, wire, total, size, true) ==
        if n == 0 then Reading(Returned(total), buffer, Taken(wire, 0))
        else if !Fits(buffer, total, n) then Reading(Undefined, buffer, wire)
        else if 0 <= total + n < size
        then ReadBody(Stored(buffer, total, wire.incoming, n), Taken(wire, n), total + n, size, true)
        else Reading(Returned(total + n), Stored(buffer, total, wire.incoming, n), Taken(wire, n))
  {
    hide Stored, Moved, Taken, Wanted, Unfilled;
    var n := Moved(wire.grants, size - total, |wire.incoming|);
    PlainCounts(size, total);
    if total + n >= 0 {
      PlainCounts(size, total + n);
    } else {
      NegativeCount(size);
    }
  }

  /** Every call is counted: bytes moved forwards and failures backwards. */
  lemma {:induction false} BodyAccounts(buffer: seq<byte>, wire: Wire, total: int, size: nat)
    ensures var r := ReadBody(buffer, wire, total, size, true);
      && Failures(wire, r.wire) >= 0 && |r.wire.incoming| <= |wire.incoming|
      && (r.outcome.Returned? ==>
          r.outcome.count == total + (|wire.incoming| - |r.wire.incoming|) - Failures(wire, r.wire))
    decreases |wire.incoming| + |wire.grants|
  {
    hide Stored, Unfilled, Wanted;
    var n := Moved(wire.grants, Wanted(size, total), |wire.incoming|);
    if n != 0 && Fits(buffer, total, n) && Unfilled(size, total + n) {
      BodyAccounts(Stored(buffer, total, wire.incoming, n), Taken(wire, n), total + n, size);
    }
  }

  /**
  Whatever the grants, as long as bytes last and the count stays positive: the loop fills the buffer up to the
  size, and each failure on the way costs the stream one byte more.
  */
  lemma {:induction false} BodyWithFailures(buffer: seq<byte>, wire: Wire, total: nat, size: nat)
    requires FailuresIn(wire.grants) < total <= size <= Room(buffer)
    requires |wire.incoming| > size - total + FailuresIn(wire.grants)
    ensures var r := ReadBody(buffer, wire, total, size, true);
      && r.outcome == Returned(size)
      && |wire.incoming| - |r.wire.incoming| == size - total + Failures(wire, r.wire)
    decreases |wire.incoming| + |wire.grants|
  {
    hide Stored, ReadBody;
    var n := Moved(wire.grants, size - total, |wire.incoming|);
    BodyStep(buffer, wire, total, size);
    if n != 0 && total + n < size {
      BodyWithFailures(Stored(buffer, total, wire.incoming, n), Taken(wire, n), total + n, size);
    }
  }

  /** The body loop has moved k bytes, or there was no room for them. */
  predicate Moves(r: Reading, buffer: seq<byte>, incoming: seq<byte>, total: nat, k: nat)
    requires k <= |incoming|
  {
    if Fits(buffer, total, k) then
      && r.outcome == Returned(total + k)
      && r.wire.incoming == incoming[k..]
      && r.buffer == Stored(buffer, total, incoming, k)
    else
      r.outcome == Undefined
  }

  lemma {:induction false} MovesTogether(
      r: Reading, buffer: seq<byte>, incoming: seq<byte>, total: nat, n: nat, k: nat)
    requires 0 < n <= k <= |incoming| && Fits(buffer, total, n)
    requires Moves(r, Stored(buffer, total, incoming, n), incoming[n..], total + n, k - n)
    ensures Moves(r, buffer, incoming, total, k)
  {
    hide Stored;
    assert incoming[n..][k - n..] == incoming[k..];
    if Fits(buffer, total, k) {
      StoredTwice(buffer, total, incoming, n, k);
    }
  }

  /** When no call fails, the body loop moves a fixed number of bytes, however they are chunked. */
  lemma {:induction false} BodyExactly(buffer: seq<byte>, wire: Wire, total: nat, size: nat)
    requires total <= size < SIZE_RANGE
    requires Failures(wire, ReadBody(buffer, wire, total, size, true).wire) == 0
    ensures Moves(ReadBody(buffer, wire, total, size, true), buffer, wire.incoming, total,
                  Min(size - total, |wire.incoming|))
    decreases |wire.incoming| + |wire.grants|
  {
    hide Stored, ReadBody;
    var n := Moved(wire.grants, size - total, |wire.incoming|);
    BodyStep(buffer, wire, total, size);
    if n != 0 && Fits(buffer, total, n) && 0 <= total + n < size {
      var buffer', wire' := Stored(buffer, total, wire.incoming, n), Taken(wire, n);
      BodyAccounts(buffer', wire', total + n, size);
      BodyExactly(buffer', wire', total + n, size);
      MovesTogether(ReadBody(buffer', wire', total + n, size, true), buffer, wire.incoming, total, n,
                    Min(size - total, |wire.incoming|));
    }
  }

  // ----- A call of Receive

  function FirstRead(wire: Wire): (n: int)
    ensures n <= 4 && n <= |wire.incoming|
  {
    Moved(wire.grants, 4, |wire.incoming|)
  }

  function SecondRead(wire: Wire): (m: int)
    ensures m <= 4 && Max(FirstRead(wire)) + m <= |wire.incoming|
  {
    Moved(Later(wire.grants), 4, |wire.incoming| - Max(FirstRead(wire)))
  }

  /** The size that the loop works with: a short first read leaves old bytes of the buffer in the length field. */
  function SizeUsed(buffer: seq<byte>, incoming: seq<byte>, n: nat): (size: nat)
    requires n <= 4 <= |buffer| && n <= |incoming|
    ensures size < RANGE || size == |buffer|
  {
    var field := incoming[..n] + buffer[n..4];
    DecodedInRange(field);
    if DecodedLength(field) > 0 then DecodedLength(field) else |buffer|
  }

  lemma {:induction false} DecodedInRange(b: seq<byte>)
    requires |b| == 4
    ensures DecodedLength(b) < RANGE
  {
    DecodedLengthExactly(b);
  }

  /**
  How many bytes a call takes when no call of recv fails. A size that the header reads already exceed makes the
  difference wrap, and then the first read of the body decides.
  */
  function Reach(buffer: seq<byte>, wire: Wire): (k: nat)
    requires |buffer| >= 4
    ensures k <= |wire.incoming|
  {
    var n, m := Max(FirstRead(wire)), Max(SecondRead(wire));
    var size := SizeUsed(buffer, wire.incoming, n);
    if size < n + m
    then n + m + Max(Moved(Later(Later(wire.grants)), Wanted(size, n + m), |wire.incoming| - n - m))
    else Min(size, |wire.incoming|)
  }

  /** Past the header reads, the rest of Receive is its body loop. */
  lemma {:induction false} AfterHeader(buffer: seq<byte>, wire: Wire, fully: bool)
    requires HEADER <= Room(buffer) && FirstRead(wire) > 0 && SecondRead(wire) > 0
    ensures var n, total := FirstRead(wire), FirstRead(wire) + SecondRead(wire);
      Receiving(buffer, wire, true, fully) ==
        ReadBody(Stored(buffer, 0, wire.incoming, total), Wire(wire.incoming[total..], Later(Later(wire.grants))),
                 total, SizeUsed(buffer, wire.incoming, n), fully)
  {
    hide LengthWord, ReadBody, Moved;
    var n, m := FirstRead(wire), SecondRead(wire);
    var buffer1, wire1 := Stored(buffer, 0, wire.incoming, n), Taken(wire, n);
    StoredFront(buffer, wire.incoming, n);
    SameDecoded(buffer1, wire.incoming[..n] + buffer[n..4]);
    StoredTwice(buffer, 0, wire.incoming, n, n + m);
    assert Taken(wire1, m).incoming == wire.incoming[n + m..];
  }

  lemma {:induction false} StoredFront(buffer: seq<byte>, incoming: seq<byte>, n: nat)
    requires 0 < n <= 4 <= Room(buffer) && n <= |incoming|
    ensures Stored(buffer, 0, incoming, n)[..4] == incoming[..n] + buffer[n..4]
  {
  }

  lemma {:induction false} SameDecoded(a: seq<byte>, b: seq<byte>)
    requires |a| >= 4 && |b| == 4 && a[..4] == b
    ensures DecodedLength(a) == DecodedLength(b)
  {
    hide LengthWord, Number;
    assert a[0] == b[0] && a[1] == b[1] && a[2] == b[2] && a[3] == b[3];
  }

  lemma {:induction false} FailuresStep(grants: seq<Grant>, wanted: nat, available: nat)
    ensures FailuresIn(grants) == FailuresIn(Later(grants)) + if Moved(grants, wanted, available) == -1 then 1 else 0
  {
  }

  /** A call that returns a positive count has taken that many bytes, and one more for each failure. */
  lemma {:induction false} ReceivingAccounts(buffer: seq<byte>, wire: Wire)
    ensures var r := Receiving(buffer, wire, true, true);
      && Failures(wire, r.wire) >= 0 && |r.wire.incoming| <= |wire.incoming|
      && (r.outcome.Returned? && r.outcome.count > 0 ==>
          r.outcome.count == |wire.incoming| - |r.wire.incoming| - Failures(wire, r.wire))
      && (|buffer| >= 4 && Failures(wire, r.wire) == 0 ==>
          && FirstRead(wire) >= 0 && (FirstRead(wire) > 0 ==> SecondRead(wire) >= 0)
          && (|wire.incoming| >= HEADER ==> FirstRead(wire) > 0 && SecondRead(wire) > 0))
  {
    hide ReadBody, Stored, DecodedLength, Moved, FailuresIn;
    var n := Moved(wire.grants, 4, |wire.incoming|);
    FailuresStep(wire.grants, 4, |wire.incoming|);
    if n != 0 && |buffer| >= 4 {
      var buffer1, wire1 := Stored(buffer, 0, wire.incoming, n), Taken(wire, n);
      var size := if DecodedLength(buffer1) > 0 then DecodedLength(buffer1) else |buffer|;
      var m := Moved(wire1.grants, 4, |wire1.incoming|);
      FailuresStep(wire1.grants, 4, |wire1.incoming|);
      if m != 0 && Fits(buffer1, n, m) {
        BodyAccounts(Stored(buffer1, n, wire1.incoming, m), Taken(wire1, m), n + m, size);
      }
    }
  }

  /** A size below the count: the wrapped difference asks for everything, and the loop ends after one read. */
  lemma {:induction false} BodyPastSize(buffer: seq<byte>, wire: Wire, total: nat, size: nat)
    requires size < total < RANGE
    requires Failures(wire, ReadBody(buffer, wire, total, size, true).wire) == 0
    ensures var k := Moved(wire.grants, Wanted(size, total), |wire.incoming|);
      k >= 0 && Moves(ReadBody(buffer, wire, total, size, true), buffer, wire.incoming, total, k)
  {
    hide Stored, Unfilled, Wanted, Moved;
    var n := Moved(wire.grants, Wanted(size, total), |wire.incoming|);
    FailuresStep(wire.grants, Wanted(size, total), |wire.incoming|);
    if n < 0 {
      BodyAccounts(buffer, Taken(wire, n), total + n, size);
    } else if Fits(buffer, total, n) && n > 0 {
      PlainUnfilled(size, total + n);
    }
  }

  lemma {:induction false} PlainUnfilled(size: nat, total: nat)
    requires total < SIZE_RANGE
    ensures Unfilled(size, total) <==> total < size
  {
  }

  lemma {:induction false} ReceivesReach(buffer: seq<byte>, wire: Wire)
    requires HEADER <= Room(buffer) && |buffer| < SIZE_RANGE
    requires HEADER <= |wire.incoming| || (FirstRead(wire) > 0 && SecondRead(wire) > 0)
    requires Failures(wire, Receiving(buffer, wire, true, true).wire) == 0
    ensures Moves(Receiving(buffer, wire, true, true), buffer, wire.incoming, 0, Reach(buffer, wire))
  {
    hide ReadBody, Receiving, Stored, Moves, Moved, SizeUsed, Wanted;
    ReceivingAccounts(buffer, wire);
    AfterHeader(buffer, wire, true);
    FailuresStep(wire.grants, 4, |wire.incoming|);
    FailuresStep(Later(wire.grants), 4, |wire.incoming| - FirstRead(wire));
    var total, size := FirstRead(wire) + SecondRead(wire), SizeUsed(buffer, wire.incoming, FirstRead(wire));
    var buffer' := Stored(buffer, 0, wire.incoming, total);
    var wire' := Wire(wire.incoming[total..], Later(Later(wire.grants)));
    var r := ReadBody(buffer', wire', total, size, true);
    BodyAccounts(buffer', wire', total, size);
    if size < total {
      BodyPastSize(buffer', wire', total, size);
    } else {
      BodyExactly(buffer', wire', total, size);
    }
    MovesTogether(r, buffer, wire.incoming, 0, total, Reach(buffer, wire));
  }

  lemma {:induction false} ReceivesNothing(buffer: seq<byte>, wire: Wire)
    requires |buffer| >= HEADER && (FirstRead(wire) <= 0 || SecondRead(wire) <= 0)
    requires Failures(wire, Receiving(buffer, wire, true, true).wire) == 0
    ensures Receiving(buffer, wire, true, true).outcome == Returned(0) && |wire.incoming| < HEADER
  {
    hide ReadBody, Stored, DecodedLength, FailuresIn;
    ReceivingAccounts(buffer, wire);
  }

  /**
  Whatever the stream and the chunks, when no call fails: bytes are stored outside the caller's buffer exactly
  when the calls reach further than it.
  */
  lemma {:induction false} LeavesBufferExactly(buffer: seq<byte>, wire: Wire)
    requires HEADER <= Room(buffer) && |buffer| < SIZE_RANGE
    requires Failures(wire, Receiving(buffer, wire, true, true).wire) == 0
    ensures Receiving(buffer, wire, true, true).outcome == Undefined <==> Reach(buffer, wire) > Room(buffer)
  {
    hide Receiving, Reach, FirstRead, SecondRead, FailuresIn, Stored;
    if FirstRead(wire) > 0 && SecondRead(wire) > 0 {
      ReceivesReach(buffer, wire);
    } else {
      ReceivesNothing(buffer, wire);
    }
  }

  /** An empty buffer and a missing connection are refused before anything is read. */
  lemma {:induction false} RefusedUnread(buffer: seq<byte>, wire: Wire, connected: bool, fully: bool)
    requires buffer == [] || !connected
    ensures Receiving(buffer, wire, connected, fully)
      == Reading(Returned(if buffer == [] then 0 else -1), buffer, wire)
  {
  }

  lemma {:induction false} BodyOnce(buffer: seq<byte>, wire: Wire, total: nat, size: nat)
    requires wire.grants != [] ==> wire.grants[0].Chunk?
    ensures var body := Moved(wire.grants, Wanted(size, total), |wire.incoming|);
      body >= 0 && Moves(ReadBody(buffer, wire, total, size, false), buffer, wire.incoming, total, body)
  {
    hide Wanted, Unfilled;
  }

  /** Without bReadFully there is one read of the body, however much of the size is still missing. */
  lemma {:induction false} OneBodyRead(buffer: seq<byte>, wire: Wire)
    requires HEADER <= Room(buffer) && FirstRead(wire) > 0 && SecondRead(wire) > 0
    requires Later(Later(wire.grants)) != [] ==> Later(Later(wire.grants))[0].Chunk?
    ensures var header := FirstRead(wire) + SecondRead(wire);
      var size, rest := SizeUsed(buffer, wire.incoming, FirstRead(wire)), |wire.incoming| - header;
      var body := Moved(Later(Later(wire.grants)), Wanted(size, header), rest);
      && 0 <= body <= rest && Moves(Receiving(buffer, wire, true, false), buffer, wire.incoming, 0, header + body)
  {
    hide ReadBody, Receiving, Stored, Moves, Moved, SizeUsed, Wanted, FirstRead, SecondRead;
    AfterHeader(buffer, wire, false);
    var header, size := FirstRead(wire) + SecondRead(wire), SizeUsed(buffer, wire.incoming, FirstRead(wire));
    var buffer' := Stored(buffer, 0, wire.incoming, header);
    var wire' := Wire(wire.incoming[header..], Later(Later(wire.grants)));
    BodyOnce(buffer', wire', header, size);
    var body := Moved(wire'.grants, Wanted(size, header), |wire'.incoming|);
    MovesTogether(Receiving(buffer, wire, true, false), buffer, wire.incoming, 0, header, header + body);
  }

  /** A buffer too short for the length field is left by the first read, or by the look at the field. */
  lemma {:induction false} ShortBuffer(buffer: seq<byte>, wire: Wire, fully: bool)
    requires 0 < |buffer| < 4
    ensures Receiving(buffer, wire, true, fully).outcome == if FirstRead(wire) == 0 then Returned(0) else Undefined
  {
  }

  /** Past the size, the difference of the two size_t wraps around. */
  lemma {:induction false} DifferenceWraps(size: nat, total: nat)
    requires size < total < RANGE
    ensures Wanted(size, total) == 0x1_0000_0000_0000_0000 - (total - size)
  {
  }

  /** A length field of zero asks for as much as the buffer holds. */
  lemma {:induction false} ZeroLength(buffer: seq<byte>, wire: Wire)
    requires HEADER <= |buffer| && HEADER <= |wire.incoming| && wire.incoming[..4] == [0, 0, 0, 0]
    requires wire.grants != [] ==> wire.grants[0].Chunk? && wire.grants[0].limit >= 3
    ensures Reach(buffer, wire) == Min(|buffer|, |wire.incoming|)
  {
    hide LengthWord, Number;
    assert FirstRead(wire) == 4;
    SameDecoded(wire.incoming[..4] + buffer[4..4], [0, 0, 0, 0]);
    ZeroDecoded();
  }

  lemma {:induction false} ZeroDecoded()
    ensures DecodedLength([0, 0, 0, 0]) == 0
  {
  }

  // ----- Frames

  /** A byte string that begins with its own length in big-endian order. */
  predicate IsFrame(frame: seq<byte>) {
    |frame| >= HEADER && Value(frame[..4]) == |frame|
  }

  predicate ReadsOnly(r: Reading, buffer: seq<byte>, frame: seq<byte>, rest: seq<byte>)
    requires |frame| <= |buffer|
  {
    r.outcome == Returned(|frame|) && r.wire.incoming == rest && r.buffer == frame + buffer[|frame|..]
  }

  predicate Overruns(r: Reading, frame: seq<byte>, rest: seq<byte>) {
    r.outcome == Undefined || (r.outcome.count > |frame| && |r.wire.incoming| < |rest|)
  }

  /**
  Under any grants, chunks and failures alike: Receive stores the next frame at the front of the buffer, returns
  its length and stops at the byte after it exactly when none of its calls fails and they reach the frame's end.
  */
  lemma {:induction false} ReceiveExactly(buffer: seq<byte>, frame: seq<byte>, rest: seq<byte>, wire: Wire)
    requires IsFrame(frame) && |frame| <= Room(buffer) && |buffer| < SIZE_RANGE && wire.incoming == frame + rest
    ensures var r := Receiving(buffer, wire, true, true);
      ReadsOnly(r, buffer, frame, rest) <==> Failures(wire, r.wire) == 0 && Reach(buffer, wire) == |frame|
  {
    hide Receiving, Value, Reach;
    var r := Receiving(buffer, wire, true, true);
    ReceivingAccounts(buffer, wire);
    assert wire.incoming[|frame|..] == rest && wire.incoming[..|frame|] == frame;
    if Failures(wire, r.wire) == 0 {
      ReceivesReach(buffer, wire);
    }
  }

  /** The first read gets the whole length field. */
  predicate WholeLength(grants: seq<Grant>) {
    grants != [] ==> grants[0].Chunk? && grants[0].limit >= 3
  }

  predicate SmallLengthBytes(frame: seq<byte>)
    requires |frame| >= 4
  {
    frame[1] < 128 && frame[2] < 128 && frame[3] < 128
  }

  lemma {:induction false} SmallLength(b: seq<byte>)
    requires |b| == 4 && Value(b) <= INT_MAX
    ensures SignHarmless(b) <==> b[1] < 128 && b[2] < 128 && b[3] < 128
  {
  }

  lemma {:induction false} WholeLengthReach(buffer: seq<byte>, wire: Wire)
    requires 4 <= |buffer| && HEADER <= |wire.incoming| && WholeLength(wire.grants)
    requires DecodedLength(wire.incoming) >= HEADER
    ensures Reach(buffer, wire) == Min(DecodedLength(wire.incoming), |wire.incoming|)
  {
    hide LengthWord, Number;
    assert FirstRead(wire) == 4;
    SameDecoded(wire.incoming, wire.incoming[..4] + buffer[4..4]);
  }

  /**
  When the first read gets the whole length field, a frame is read right exactly when no call fails and none of
  its last three length bytes reaches 128 (or nothing follows it before the peer's shutdown). Without a failure
  another frame is read beyond its end, as far as the wire or the buffer goes.
  */
  lemma {:induction false} FrameExactly(buffer: seq<byte>, frame: seq<byte>, rest: seq<byte>, wire: Wire)
    requires IsFrame(frame) && |frame| <= Room(buffer) && |buffer| < SIZE_RANGE
    requires wire.incoming == frame + rest && WholeLength(wire.grants)
    ensures var r := Receiving(buffer, wire, true, true);
      && (ReadsOnly(r, buffer, frame, rest) <==>
          Failures(wire, r.wire) == 0 && (SmallLengthBytes(frame) || rest == []))
      && (Failures(wire, r.wire) == 0 && !SmallLengthBytes(frame) && rest != [] ==> Overruns(r, frame, rest))
  {
    hide Receiving, LengthWord, Value, Reach, Number, Harmless;
    SameDecoded(wire.incoming, frame[..4]);
    DecodedLengthExactly(frame[..4]);
    SmallLength(frame[..4]);
    WholeLengthReach(buffer, wire);
    ReceiveExactly(buffer, frame, rest, wire);
    if Failures(wire, Receiving(buffer, wire, true, true).wire) == 0 {
      ReceivesReach(buffer, wire);
    }
  }

  /** A frame of 200 bytes is not read to its own end when another byte follows. */
  lemma {:induction false} FrameOf200(frame: seq<byte>, next: byte)
    requires |frame| == 200 && frame[..4] == [0, 0, 0, 200]
    ensures var r := Receiving(seq(1024, _ => 0), Wire(frame + [next], []), true, true);
      IsFrame(frame) && r.outcome == Returned(201) && r.wire.incoming == []
  {
    hide ReadBody, Receiving, Reach, LengthWord, Number;
    var buffer, wire := seq(1024, _ => 0), Wire(frame + [next], []);
    SameDecoded(wire.incoming, frame[..4]);
    DecodedLengthExactly(frame[..4]);
    WholeLengthReach(buffer, wire);
    ReceivingAccounts(buffer, wire);
    ReceivesReach(buffer, wire);
  }

  // ----- A stream of frames

  function Concat(frames: seq<seq<byte>>): seq<byte> {
    if frames == [] then [] else frames[0] + Concat(frames[1..])
  }

  /** The bytes that a call reports in the caller's buffer. */
  function Reported(r: Reading): seq<byte> {
    if r.outcome.Returned? && 0 <= r.outcome.count <= |r.buffer| then r.buffer[..r.outcome.count] else []
  }

  /** What n calls of Receive report, each in a buffer of its own, and what they leave. */
  function ReceivedInTurn(buffer: seq<byte>, wire: Wire, n: nat): (seq<seq<byte>>, Wire)
    decreases n
  {
    if n == 0 then ([], wire)
    else
      var r := Receiving(buffer, wire, true, true);
      var (others, left) := ReceivedInTurn(buffer, r.wire, n - 1);
      ([Reported(r)] + others, left)
  }

  /** Each of n calls gets the whole length field in its first read; all other reads are free. */
  predicate TurnsStartWhole(buffer: seq<byte>, wire: Wire, n: nat)
    decreases n
  {
    n > 0 ==>
      WholeLength(wire.grants) && TurnsStartWhole(buffer, Receiving(buffer, wire, true, true).wire, n - 1)
  }

  lemma {:induction false} TurnsAccount(buffer: seq<byte>, wire: Wire, n: nat)
    ensures var (read, left) := ReceivedInTurn(buffer, wire, n);
      && |read| == n && Failures(wire, left) >= 0
      && ([] !in read ==> |wire.incoming| == |left.incoming| + |Concat(read)| + Failures(wire, left))
    decreases n
  {
    hide Receiving;
    if n > 0 {
      var r := Receiving(buffer, wire, true, true);
      ReceivingAccounts(buffer, wire);
      TurnsAccount(buffer, r.wire, n - 1);
      var read, others := ReceivedInTurn(buffer, wire, n).0, ReceivedInTurn(buffer, r.wire, n - 1).0;
      assert read[0] == Reported(r) && read[1..] == others;
      assert forall b :: b in others ==> b in read;
    }
  }

  predicate FramesFit(buffer: seq<byte>, frames: seq<seq<byte>>) {
    |buffer| < SIZE_RANGE && forall f :: f in frames ==> IsFrame(f) && |f| <= Room(buffer)
  }

  lemma {:induction false} FirstFits(buffer: seq<byte>, frames: seq<seq<byte>>)
    requires FramesFit(buffer, frames) && frames != []
    ensures IsFrame(frames[0]) && HEADER <= |frames[0]| <= Room(buffer)
    ensures |buffer| < SIZE_RANGE && FramesFit(buffer, frames[1..])
  {
    hide Value;
  }

  /** Each call, begun where the one before it ended, reaches the end of its frame. */
  predicate TurnsReach(buffer: seq<byte>, wire: Wire, frames: seq<seq<byte>>)
    decreases |frames|
  {
    frames != [] ==>
      && |buffer| >= 4 && Reach(buffer, wire) == |frames[0]|
      && TurnsReach(buffer, Receiving(buffer, wire, true, true).wire, frames[1..])
  }

  /** One call of several, when no call of recv fails. */
  lemma {:induction false} TurnReaches(buffer: seq<byte>, frame: seq<byte>, rest: seq<byte>, wire: Wire)
    requires IsFrame(frame) && |frame| <= Room(buffer) && |buffer| < SIZE_RANGE && wire.incoming == frame + rest
    requires Failures(wire, Receiving(buffer, wire, true, true).wire) == 0
    ensures var r := Receiving(buffer, wire, true, true);
      && (Reported(r) == frame <==> Reach(buffer, wire) == |frame|)
      && (Reach(buffer, wire) == |frame| ==> r.wire.incoming == rest)
  {
    hide Receiving, Value, Reach, Stored;
    ReceiveExactly(buffer, frame, rest, wire);
    ReceivesReach(buffer, wire);
  }

  lemma {:induction false} TurnsReachExactly(buffer: seq<byte>, frames: seq<seq<byte>>, rest: seq<byte>, wire: Wire)
    requires FramesFit(buffer, frames) && wire.incoming == Concat(frames) + rest
    requires Failures(wire, ReceivedInTurn(buffer, wire, |frames|).1) == 0
    ensures var (read, left) := ReceivedInTurn(buffer, wire, |frames|);
      read == frames && left.incoming == rest <==> TurnsReach(buffer, wire, frames)
    decreases |frames|
  {
    hide Receiving, IsFrame, Reach, Reported, FramesFit;
    if frames != [] {
      FirstFits(buffer, frames);
      var frame, others := frames[0], frames[1..];
      assert wire.incoming == frame + (Concat(others) + rest);
      var r := Receiving(buffer, wire, true, true);
      ReceivingAccounts(buffer, wire);
      TurnsAccount(buffer, r.wire, |others|);
      TurnReaches(buffer, frame, Concat(others) + rest, wire);
      hide Concat;
      if Reach(buffer, wire) == |frame| {
        TurnsReachExactly(buffer, others, rest, r.wire);
      }
    } else {
      assert [] + rest == rest;
    }
  }

  /**
  Under any grants, calls of Receive take the frames of a stream one by one and leave what follows them exactly
  when no call of recv fails and each call reaches the end of its frame.
  */
  lemma {:induction false} FramesInTurnExactly(buffer: seq<byte>, frames: seq<seq<byte>>, rest: seq<byte>, wire: Wire)
    requires FramesFit(buffer, frames) && wire.incoming == Concat(frames) + rest
    ensures var (read, left) := ReceivedInTurn(buffer, wire, |frames|);
      read == frames && left.incoming == rest <==> Failures(wire, left) == 0 && TurnsReach(buffer, wire, frames)
  {
    hide Receiving, Concat, TurnsReach, ReceivedInTurn, FailuresIn;
    TurnsAccount(buffer, wire, |frames|);
    var (read, left) := ReceivedInTurn(buffer, wire, |frames|);
    assert [] !in frames by {
      assert !IsFrame([]);
    }
    if Failures(wire, left) == 0 {
      TurnsReachExactly(buffer, frames, rest, wire);
    }
    if read == frames && left.incoming == rest {
      assert [] !in read;
      assert |wire.incoming| == |rest| + |Concat(frames)|;
    }
  }

  predicate Readable(buffer: seq<byte>, frames: seq<seq<byte>>) {
    FramesFit(buffer, frames) && forall f :: f in frames ==> SmallLengthBytes(f)
  }

  lemma {:induction false} WholeTurnsReach(buffer: seq<byte>, frames: seq<seq<byte>>, rest: seq<byte>, wire: Wire)
    requires Readable(buffer, frames) && wire.incoming == Concat(frames) + rest
    requires TurnsStartWhole(buffer, wire, |frames|)
    requires Failures(wire, ReceivedInTurn(buffer, wire, |frames|).1) == 0
    ensures TurnsReach(buffer, wire, frames)
    decreases |frames|
  {
    hide Receiving, IsFrame, Reach, SmallLengthBytes, FramesFit;
    if frames != [] {
      FirstFits(buffer, frames);
      var frame, others := frames[0], frames[1..];
      var r := Receiving(buffer, wire, true, true);
      assert wire.incoming == frame + (Concat(others) + rest);
      ReceivingAccounts(buffer, wire);
      TurnsAccount(buffer, r.wire, |others|);
      ReceiveExactly(buffer, frame, Concat(others) + rest, wire);
      FrameExactly(buffer, frame, Concat(others) + rest, wire);
      hide Concat;
      WholeTurnsReach(buffer, others, rest, r.wire);
    }
  }

  /**
  Whatever chunks all but the first read of each call get, calls of Receive take frames with small length bytes
  one by one and leave what follows them exactly when no call of recv fails.
  */
  lemma {:induction false} FramesInTurn(buffer: seq<byte>, frames: seq<seq<byte>>, rest: seq<byte>, wire: Wire)
    requires Readable(buffer, frames) && wire.incoming == Concat(frames) + rest
    requires TurnsStartWhole(buffer, wire, |frames|)
    ensures var (read, left) := ReceivedInTurn(buffer, wire, |frames|);
      read == frames && left.incoming == rest <==> Failures(wire, left) == 0
  {
    hide Receiving, Concat, TurnsReach, ReceivedInTurn, FailuresIn, TurnsStartWhole;
    FramesInTurnExactly(buffer, frames, rest, wire);
    if Failures(wire, ReceivedInTurn(buffer, wire, |frames|).1) == 0 {
      WholeTurnsReach(buffer, frames, rest, wire);
    }
  }

  // ----- A failing call

  /** The frame without its byte at one place, then one byte of what follows. */
  function OneLost(frame: seq<byte>, at: nat, rest: seq<byte>): (r: seq<byte>)
    requires at < |frame| && rest != []
    ensures |r| == |frame|
  {
    frame[..at] + frame[at + 1..] + rest[..1]
  }

  lemma {:induction false} StoredOver(buffer: seq<byte>, frame: seq<byte>, rest: seq<byte>, at: nat)
    requires 0 < at && at + 1 < |frame| <= Room(buffer) && rest != []
    ensures Stored(Stored(buffer, 0, frame + rest, at + 1), at, (frame + rest)[at + 1..], |frame| - at)
      == OneLost(frame, at, rest) + buffer[|frame|..]
    ensures (frame + rest)[at + 1..][|frame| - at..] == rest[1..]
  {
    var more := (frame + rest)[at + 1..];
    assert more[..|frame| - at] == frame[at + 1..] + rest[..1];
    assert (frame + rest)[..at + 1] == frame[..at + 1];
    var front := Stored(buffer, 0, frame + rest, at + 1);
    assert front == frame[..at + 1] + buffer[at + 1..];
    assert front[..at] == frame[..at] && front[|frame|..] == buffer[|frame|..];
  }

  /** One failure after a chunk: a byte of the frame is lost and the call takes one of the next. */
  lemma {:induction false} FailureTakesNextByte(buffer: seq<byte>, frame: seq<byte>, rest: seq<byte>, k: nat)
    requires IsFrame(frame) && SmallLengthBytes(frame) && |frame| <= Room(buffer) && rest != []
    requires 0 < k && HEADER + k < |frame|
    ensures Receiving(buffer, Wire(frame + rest, [Chunk(3), Chunk(3), Chunk(k - 1), Fail]), true, true)
      == Reading(Returned(|frame|), OneLost(frame, HEADER + k - 1, rest) + buffer[|frame|..], Wire(rest[1..], []))
  {
    hide LengthWord, Value, ReadBody, Receiving, Stored, OneLost, Harmless, Number;
    var incoming := frame + rest;
    var wire := Wire(incoming, [Chunk(3), Chunk(3), Chunk(k - 1), Fail]);
    assert FirstRead(wire) == 4 && SecondRead(wire) == 4;
    SameDecoded(incoming[..4] + buffer[4..4], frame[..4]);
    DecodedLengthExactly(frame[..4]);
    SmallLength(frame[..4]);
    AfterHeader(buffer, wire, true);
    assert SizeUsed(buffer, incoming, 4) == |frame|;
    assert Later(Later(wire.grants)) == [Chunk(k - 1), Fail];
    var at := HEADER + k;
    ChunkStep(Stored(buffer, 0, incoming, HEADER), incoming[HEADER..], k, |frame|);
    StoredTwice(buffer, 0, incoming, HEADER, at);
    assert incoming[HEADER..][k..] == incoming[at..];
    var buffer' := Stored(buffer, 0, incoming, at);
    FailStep(buffer', incoming[at..], at, |frame|);
    BodyToEnd(buffer', incoming[at..], at - 1, |frame|);
    StoredOver(buffer, frame, rest, at - 1);
    assert Receiving(buffer, wire, true, true)
      == ReadBody(Stored(buffer, 0, incoming, HEADER), Wire(incoming[HEADER..], [Chunk(k - 1), Fail]),
                  HEADER, |frame|, true);
    assert Receiving(buffer, wire, true, true) == ReadBody(buffer', Wire(incoming[at..], [Fail]), at, |frame|, true);
    assert Receiving(buffer, wire, true, true) == ReadBody(buffer', Wire(incoming[at..], []), at - 1, |frame|, true);
  }

  lemma {:induction false} BodyToEnd(buffer: seq<byte>, incoming: seq<byte>, total: nat, size: nat)
    requires total < size <= Room(buffer) && size - total <= |incoming|
    ensures ReadBody(buffer, Wire(incoming, []), total, size, true)
      == Reading(Returned(size), Stored(buffer, total, incoming, size - total), Wire(incoming[size - total..], []))
  {
    hide Stored, ReadBody;
    BodyStep(buffer, Wire(incoming, []), total, size);
  }

  lemma {:induction false} ChunkStep(buffer: seq<byte>, body: seq<byte>, k: nat, size: nat)
    requires 0 < k <= |body| && HEADER + k < size <= Room(buffer)
    ensures ReadBody(buffer, Wire(body, [Chunk(k - 1), Fail]), HEADER, size, true)
      == ReadBody(Stored(buffer, HEADER, body, k), Wire(body[k..], [Fail]), HEADER + k, size, true)
  {
    hide Stored, ReadBody;
    BodyStep(buffer, Wire(body, [Chunk(k - 1), Fail]), HEADER, size);
  }

  lemma {:induction false} FailStep(buffer: seq<byte>, body: seq<byte>, total: nat, size: nat)
    requires 0 < total <= size <= Room(buffer)
    ensures ReadBody(buffer, Wire(body, [Fail]), total, size, true)
      == ReadBody(buffer, Wire(body, []), total - 1, size, true)
  {
    hide Stored, ReadBody;
    BodyStep(buffer, Wire(body, [Fail]), total, size);
    assert Taken(Wire(body, [Fail]), -1) == Wire(body, []);
  }
}
