/**
The AVX2 instructions that the UUID printer and parser use, on the little-endian path: a register
is its bytes in memory order, 16 of them for __m128i and 32 for __m256i. A wider lane is put
together from its bytes, computed on as one bit vector, and taken apart again.
*/
module Simd {

  type Xmm = v: seq<bv8> | |v| == 16 witness seq(16, _ => 0)
  type Ymm = v: seq<bv8> | |v| == 32 witness seq(32, _ => 0)

  function Lane64(v: seq<bv8>, at: nat): bv64
    requires at + 8 <= |v|
  {
    (v[at] as bv64) | ((v[at + 1] as bv64) << 8) | ((v[at + 2] as bv64) << 16) | ((v[at + 3] as bv64) << 24)
    | ((v[at + 4] as bv64) << 32) | ((v[at + 5] as bv64) << 40)
    | ((v[at + 6] as bv64) << 48) | ((v[at + 7] as bv64) << 56)
  }

  function Bytes64(w: bv64): (v: seq<bv8>)
    ensures |v| == 8
  {
    [(w & 0xff) as bv8, ((w >> 8) & 0xff) as bv8, ((w >> 16) & 0xff) as bv8, ((w >> 24) & 0xff) as bv8,
     ((w >> 32) & 0xff) as bv8, ((w >> 40) & 0xff) as bv8, ((w >> 48) & 0xff) as bv8, ((w >> 56) & 0xff) as bv8]
  }

  function Lane32(v: seq<bv8>, at: nat): bv32
    requires at + 4 <= |v|
  {
    (v[at] as bv32) | ((v[at + 1] as bv32) << 8) | ((v[at + 2] as bv32) << 16) | ((v[at + 3] as bv32) << 24)
  }

  function Bytes32(w: bv32): (v: seq<bv8>)
    ensures |v| == 4
  {
    [(w & 0xff) as bv8, ((w >> 8) & 0xff) as bv8, ((w >> 16) & 0xff) as bv8, ((w >> 24) & 0xff) as bv8]
  }

  // The set instructions take their arguments from the highest lane down.

  function Set1(b: bv8): Ymm {
    seq(32, _ => b)
  }

  function SetEpi64(high: bv64, low: bv64): Xmm {
    Bytes64(low) + Bytes64(high)
  }

  function Set4Epi64(e3: bv64, e2: bv64, e1: bv64, e0: bv64): Ymm {
    Bytes64(e0) + Bytes64(e1) + Bytes64(e2) + Bytes64(e3)
  }

  function SetEpi32(e7: bv32, e6: bv32, e5: bv32, e4: bv32, e3: bv32, e2: bv32, e1: bv32, e0: bv32): Ymm {
    Bytes32(e0) + Bytes32(e1) + Bytes32(e2) + Bytes32(e3) + Bytes32(e4) + Bytes32(e5) + Bytes32(e6) + Bytes32(e7)
  }

  function And(a: seq<bv8>, b: seq<bv8>): (r: seq<bv8>)
    requires |a| == |b|
    ensures |r| == |a|
  {
    seq(|a|, i requires 0 <= i < |a| => a[i] & b[i])
  }

  function Or(a: seq<bv8>, b: seq<bv8>): (r: seq<bv8>)
    requires |a| == |b|
    ensures |r| == |a|
  {
    seq(|a|, i requires 0 <= i < |a| => a[i] | b[i])
  }

  function AddEpi8(a: Ymm, b: Ymm): Ymm {
    seq(32, i requires 0 <= i < 32 => a[i] + b[i])
  }

  function SubEpi8(a: Ymm, b: Ymm): Ymm {
    seq(32, i requires 0 <= i < 32 => a[i] - b[i])
  }

  function BlendvEpi8(a: Ymm, b: Ymm, mask: Ymm): Ymm {
    seq(32, i requires 0 <= i < 32 => if mask[i] & 0x80 != 0 then b[i] else a[i])
  }

  function Srl(w: bv64, n: bv8): bv64
    requires n <= 64
  {
    w >> n
  }

  function Sll(w: bv64, n: bv8): bv64
    requires n <= 64
  {
    w << n
  }

  function SrliEpi64(v: Ymm, n: bv8): Ymm
    requires n <= 64
  {
    Bytes64(Srl(Lane64(v, 0), n)) + Bytes64(Srl(Lane64(v, 8), n))
    + Bytes64(Srl(Lane64(v, 16), n)) + Bytes64(Srl(Lane64(v, 24), n))
  }

  function SlliEpi64(v: Ymm, n: bv8): Ymm
    requires n <= 64
  {
    Bytes64(Sll(Lane64(v, 0), n)) + Bytes64(Sll(Lane64(v, 8), n))
    + Bytes64(Sll(Lane64(v, 16), n)) + Bytes64(Sll(Lane64(v, 24), n))
  }

  /** Every 32-bit lane is shifted by the count in the same lane; a count of 32 or more clears it. */
  function Sllv32(w: bv32, count: bv32): bv32 {
    if count < 32 then w << count else 0
  }

  function SllvLane(v: Xmm, counts: Xmm): Xmm {
    Bytes32(Sllv32(Lane32(v, 0), Lane32(counts, 0))) + Bytes32(Sllv32(Lane32(v, 4), Lane32(counts, 4)))
    + Bytes32(Sllv32(Lane32(v, 8), Lane32(counts, 8))) + Bytes32(Sllv32(Lane32(v, 12), Lane32(counts, 12)))
  }

  function SllvEpi32(v: Ymm, counts: Ymm): Ymm {
    SllvLane(v[..16], counts[..16]) + SllvLane(v[16..], counts[16..])
  }

  /** Interleaves the low halves of each 128-bit lane. */
  function UnpackLoEpi8(a: Ymm, b: Ymm): Ymm {
    seq(32, i requires 0 <= i < 32 => var k := i / 16 * 16 + i % 16 / 2; if i % 2 == 0 then a[k] else b[k])
  }

  /** Interleaves the high halves of each 128-bit lane. */
  function UnpackHiEpi8(a: Ymm, b: Ymm): Ymm {
    seq(32, i requires 0 <= i < 32 => var k := i / 16 * 16 + 8 + i % 16 / 2; if i % 2 == 0 then a[k] else b[k])
  }

  /** Picks bytes inside one 128-bit lane; a control byte with its top bit set gives zero. */
  function ShuffleLane(v: Xmm, control: Xmm): Xmm {
    seq(16, i requires 0 <= i < 16 => if control[i] & 0x80 != 0 then 0 else v[(control[i] & 0x0f) as nat])
  }

  function ShuffleEpi8(v: Ymm, control: Ymm): Ymm {
    ShuffleLane(v[..16], control[..16]) + ShuffleLane(v[16..], control[16..])
  }

  /** Adds neighbouring 32-bit lanes inside each 128-bit lane, a's sums before b's. */
  function Add32(x: bv32, y: bv32): bv32 {
    x + y
  }

  function HaddPair(a: Xmm): (r: seq<bv8>)
    ensures |r| == 8
  {
    Bytes32(Add32(Lane32(a, 0), Lane32(a, 4))) + Bytes32(Add32(Lane32(a, 8), Lane32(a, 12)))
  }

  function HaddLane(a: Xmm, b: Xmm): Xmm {
    HaddPair(a) + HaddPair(b)
  }

  function HaddEpi32(a: Ymm, b: Ymm): Ymm {
    HaddLane(a[..16], b[..16]) + HaddLane(a[16..], b[16..])
  }

  /** Puts the chosen 64-bit lanes in a row. */
  function Permute4x64(v: Ymm, lane0: nat, lane1: nat, lane2: nat, lane3: nat): Ymm
    requires lane0 < 4 && lane1 < 4 && lane2 < 4 && lane3 < 4
  {
    v[8 * lane0..8 * lane0 + 8] + v[8 * lane1..8 * lane1 + 8]
    + v[8 * lane2..8 * lane2 + 8] + v[8 * lane3..8 * lane3 + 8]
  }

  /** The lower half of a register; a cast from 128 to 256 bits leaves the upper half undefined. */
  function Low(v: Ymm): Xmm {
    v[..16]
  }

  function InsertHigh(v: Ymm, x: Xmm): Ymm {
    v[..16] + x
  }

  function InsertBytes(v: Ymm, at: nat, bytes: seq<bv8>): Ymm
    requires at + |bytes| <= 32
  {
    v[..at] + bytes + v[at + |bytes|..]
  }
}

/** UUIDs as 16 bytes and as text: the vector printer and parser against plain hexadecimal. */
module Uuid {
  import opened Simd

  const DASH: bv8 := 0x2d

  // ----- The plain form: two lower-case hex digits for each byte, groups of 8-4-4-4-12 digits.

  /** The ASCII code of a lower-case hex digit. */
  function HexChar(n: bv8): bv8 {
    if n < 10 then 0x30 + n else 0x61 + (n - 10)
  }

  predicate IsHexChar(c: bv8) {
    0x30 <= c <= 0x39 || 0x61 <= c <= 0x66
  }

  function HexValue(c: bv8): bv8 {
    if c <= 0x39 then c - 0x30 else c - 0x61 + 10
  }

  function HighNibble(b: bv8): bv8 {
    b >> 4
  }

  function LowNibble(b: bv8): bv8 {
    b & 0x0f
  }

  function Byte(high: bv8, low: bv8): bv8 {
    (high << 4) | low
  }

  /** Nibble i of a value, the high nibble of the first byte first. */
  function Nibble(x: Xmm, i: nat): bv8
    requires i < 32
  {
    if i % 2 == 0 then HighNibble(x[i / 2]) else LowNibble(x[i / 2])
  }

  function Digits(x: Xmm): Ymm {
    seq(32, i requires 0 <= i < 32 => HexChar(Nibble(x, i)))
  }

  function WithDashes(d: Ymm): (t: seq<bv8>)
    ensures |t| == 36
  {
    d[..8] + [DASH] + d[8..12] + [DASH] + d[12..16] + [DASH] + d[16..20] + [DASH] + d[20..]
  }

  function WithoutDashes(t: seq<bv8>): Ymm
    requires |t| == 36
  {
    t[..8] + t[9..13] + t[14..18] + t[19..23] + t[24..]
  }

  function Text(x: Xmm): (t: seq<bv8>)
    ensures |t| == 36
  {
    WithDashes(Digits(x))
  }

  predicate Canonical(t: seq<bv8>)
    requires |t| == 36
  {
    t[8] == t[13] == t[18] == t[23] == DASH && forall i :: 0 <= i < 32 ==> IsHexChar(WithoutDashes(t)[i])
  }

  /** The value of 32 hex digits, two digits a byte. */
  function Packed(d: Ymm): Xmm {
    seq(16, k requires 0 <= k < 16 => Byte(HexValue(d[2 * k]), HexValue(d[2 * k + 1])))
  }

  // ----- m128itos

  /** The registers of m128itos up to the 32 digits; undefined is what the cast leaves in the upper half. */
  function DigitLanes(x: Xmm, undefined: Xmm): Ymm {
    var add := Set1(0x06);
    var a := x + undefined;
    var shifted := SrliEpi64(a, 4);
    var lo := UnpackLoEpi8(shifted, a);
    var hi := Low(UnpackHiEpi8(shifted, a));
    var c := InsertHigh(lo, hi);
    var d := And(c, Set1(0x0f));
    var alpha := SlliEpi64(And(AddEpi8(d, add), Set1(0x10)), 3);
    var offset := BlendvEpi8(SlliEpi64(add, 3), Set1(0x57), alpha);
    AddEpi8(d, offset)
  }

  lemma {:induction false} ShiftRightBytes(v: Ymm, at: nat)
    requires at + 8 <= 32
    ensures var b := Bytes64(Srl(Lane64(v, at), 4));
      && LowNibble(b[0]) == HighNibble(v[at]) && LowNibble(b[1]) == HighNibble(v[at + 1])
      && LowNibble(b[2]) == HighNibble(v[at + 2]) && LowNibble(b[3]) == HighNibble(v[at + 3])
      && LowNibble(b[4]) == HighNibble(v[at + 4]) && LowNibble(b[5]) == HighNibble(v[at + 5])
      && LowNibble(b[6]) == HighNibble(v[at + 6]) && LowNibble(b[7]) == HighNibble(v[at + 7])
  {
  }

  lemma {:induction false} ShiftRightLane(v: Ymm, at: nat)
    requires at + 8 <= 32
    ensures var b := Bytes64(Srl(Lane64(v, at), 4)); forall k :: 0 <= k < 8 ==> LowNibble(b[k]) == HighNibble(v[at + k])
  {
    hide Lane64, Bytes64, Srl, HighNibble, LowNibble;
    ShiftRightBytes(v, at);
  }

  /** The 64-bit shift right moves bits across bytes, but only into their high nibbles. */
  lemma {:induction false} ShiftRight4(v: Ymm)
    ensures forall i :: 0 <= i < 32 ==> LowNibble(SrliEpi64(v, 4)[i]) == HighNibble(v[i])
  {
    hide Lane64, Bytes64, Srl, HighNibble, LowNibble;
    ShiftRightLane(v, 0);
    ShiftRightLane(v, 8);
    ShiftRightLane(v, 16);
    ShiftRightLane(v, 24);
  }

  function ShiftedLeft(b: bv8, n: bv8): bv8
    requires n <= 8
  {
    b << n
  }

  predicate Shiftable(b: bv8, n: bv8)
    requires n <= 8
  {
    (b << n) >> n == b
  }

  lemma {:induction false} ShiftLeftBytes(v: Ymm, at: nat, n: bv8)
    requires at + 8 <= 32 && n <= 8
    requires forall i :: 0 <= i < 32 ==> Shiftable(v[i], n)
    ensures var b := Bytes64(Sll(Lane64(v, at), n));
      && b[0] == ShiftedLeft(v[at], n) && b[1] == ShiftedLeft(v[at + 1], n) && b[2] == ShiftedLeft(v[at + 2], n)
      && b[3] == ShiftedLeft(v[at + 3], n) && b[4] == ShiftedLeft(v[at + 4], n) && b[5] == ShiftedLeft(v[at + 5], n)
      && b[6] == ShiftedLeft(v[at + 6], n) && b[7] == ShiftedLeft(v[at + 7], n)
  {
  }

  lemma {:induction false} ShiftLeftLane(v: Ymm, at: nat, n: bv8)
    requires at + 8 <= 32 && n <= 8
    requires forall i :: 0 <= i < 32 ==> Shiftable(v[i], n)
    ensures var b := Bytes64(Sll(Lane64(v, at), n)); forall k :: 0 <= k < 8 ==> b[k] == ShiftedLeft(v[at + k], n)
  {
    hide Lane64, Bytes64, Sll, ShiftedLeft, Shiftable;
    ShiftLeftBytes(v, at, n);
  }

  /** A 64-bit shift left keeps bytes apart when no byte has a bit to lose. */
  lemma {:induction false} ShiftLeft(v: Ymm, n: bv8)
    requires n <= 8
    requires forall i :: 0 <= i < 32 ==> Shiftable(v[i], n)
    ensures forall i :: 0 <= i < 32 ==> SlliEpi64(v, n)[i] == ShiftedLeft(v[i], n)
  {
    hide Lane64, Bytes64, Sll, ShiftedLeft, Shiftable;
    ShiftLeftLane(v, 0, n);
    ShiftLeftLane(v, 8, n);
    ShiftLeftLane(v, 16, n);
    ShiftLeftLane(v, 24, n);
  }

  lemma {:induction false} Interleaves(s: Ymm, a: Ymm)
    ensures forall i :: 0 <= i < 16 ==> UnpackLoEpi8(s, a)[i] == if i % 2 == 0 then s[i / 2] else a[i / 2]
    ensures forall i :: 0 <= i < 16 ==> UnpackHiEpi8(s, a)[i] == if i % 2 == 0 then s[8 + i / 2] else a[8 + i / 2]
  {
  }

  lemma {:induction false} Interleaved(s: Ymm, a: Ymm)
    ensures var c := InsertHigh(UnpackLoEpi8(s, a), Low(UnpackHiEpi8(s, a)));
      forall i :: 0 <= i < 32 ==> c[i] == if i % 2 == 0 then s[i / 2] else a[i / 2]
  {
    hide UnpackLoEpi8, UnpackHiEpi8;
    Interleaves(s, a);
  }

  lemma {:induction false} NibblesAreSmall(b: bv8)
    ensures HighNibble(b) < 16 && LowNibble(b) < 16
  {
  }

  lemma {:induction false} Masked(c: Ymm)
    ensures forall i :: 0 <= i < 32 ==> And(c, Set1(0x0f))[i] == LowNibble(c[i])
  {
  }

  /** The masked, interleaved bytes are the nibbles of x, whatever the cast left in the upper half. */
  lemma {:induction false} NibbleLanes(x: Xmm, undefined: Xmm)
    ensures var a := x + undefined; var s := SrliEpi64(a, 4);
      var c := InsertHigh(UnpackLoEpi8(s, a), Low(UnpackHiEpi8(s, a)));
      forall i :: 0 <= i < 32 ==> And(c, Set1(0x0f))[i] == Nibble(x, i) < 16
  {
    hide SrliEpi64, UnpackLoEpi8, UnpackHiEpi8, InsertHigh, Low, And, Set1, HighNibble, LowNibble;
    var a: Ymm := x + undefined;
    var s := SrliEpi64(a, 4);
    ShiftRight4(a);
    Interleaved(s, a);
    Masked(InsertHigh(UnpackLoEpi8(s, a), Low(UnpackHiEpi8(s, a))));
    forall i | 0 <= i < 32
      ensures Nibble(x, i) < 16
    {
      NibblesAreSmall(x[i / 2]);
    }
  }

  lemma {:induction false} DigitLanesCorrect(x: Xmm, undefined: Xmm)
    ensures DigitLanes(x, undefined) == Digits(x)
  {
    hide SrliEpi64, SlliEpi64, Nibble, UnpackLoEpi8, UnpackHiEpi8, InsertHigh;
    var add := Set1(0x06);
    var a := x + undefined;
    var shifted := SrliEpi64(a, 4);
    NibbleLanes(x, undefined);
    var d: Ymm := And(InsertHigh(UnpackLoEpi8(shifted, a), Low(UnpackHiEpi8(shifted, a))), Set1(0x0f));
    ShiftLeft(And(AddEpi8(d, add), Set1(0x10)), 3);
    ShiftLeft(add, 3);
  }

  function Overwritten(s: seq<bv8>, at: nat, bytes: seq<bv8>): (r: seq<bv8>)
    requires at + |bytes| <= |s|
    ensures |r| == |s|
  {
    s[..at] + bytes + s[at + |bytes|..]
  }

  /** Copies a register or a part of one into the text buffer, as the unaligned stores do. */
  method Store(mem: array<bv8>, at: nat, bytes: seq<bv8>)
    requires at + |bytes| <= mem.Length
    modifies mem
    ensures mem[..] == Overwritten(old(mem[..]), at, bytes)
  {
    forall i | 0 <= i < |bytes| {
      mem[at + i] := bytes[i];
    }
  }

  function PrintShuffle(): Ymm {
    SetEpi32(0x0b0a0908, 0x07060504, 0x80030201, 0x00808080, 0x0d0c800b, 0x0a090880, 0x07060504, 0x03020100)
  }

  lemma {:induction false} PrintShuffleLowControl()
    ensures PrintShuffle()[..16] == [0, 1, 2, 3, 4, 5, 6, 7, 0x80, 8, 9, 10, 11, 0x80, 12, 13]
  {
  }

  lemma {:induction false} PrintShuffleLowBy(v: Xmm, control: Xmm)
    requires control == [0, 1, 2, 3, 4, 5, 6, 7, 0x80, 8, 9, 10, 11, 0x80, 12, 13]
    ensures ShuffleLane(v, control) == v[..8] + [0] + v[8..12] + [0] + v[12..14]
  {
  }

  lemma {:induction false} PrintShuffleLow(v: Xmm)
    ensures ShuffleLane(v, PrintShuffle()[..16]) == v[..8] + [0] + v[8..12] + [0] + v[12..14]
  {
    hide ShuffleLane, PrintShuffle;
    PrintShuffleLowControl();
    PrintShuffleLowBy(v, PrintShuffle()[..16]);
  }

  lemma {:induction false} PrintShuffleHighControl()
    ensures PrintShuffle()[16..] == [0x80, 0x80, 0x80, 0, 1, 2, 3, 0x80, 4, 5, 6, 7, 8, 9, 10, 11]
  {
  }

  lemma {:induction false} PrintShuffleHighBy(v: Xmm, control: Xmm)
    requires control == [0x80, 0x80, 0x80, 0, 1, 2, 3, 0x80, 4, 5, 6, 7, 8, 9, 10, 11]
    ensures ShuffleLane(v, control) == [0, 0, 0] + v[..4] + [0] + v[4..12]
  {
  }

  lemma {:induction false} PrintShuffleHigh(v: Xmm)
    ensures ShuffleLane(v, PrintShuffle()[16..]) == [0, 0, 0] + v[..4] + [0] + v[4..12]
  {
    hide ShuffleLane, PrintShuffle;
    PrintShuffleHighControl();
    PrintShuffleHighBy(v, PrintShuffle()[16..]);
  }

  function DashRegister(): Ymm {
    Set4Epi64(0, 0x2d000000002d0000, 0x00002d000000002d, 0)
  }

  lemma {:induction false} DashPositions()
    ensures DashRegister() == seq(32, i => if i == 8 || i == 13 || i == 18 || i == 23 then DASH else 0)
  {
  }

  /** The lane shuffle and the dash constant: right except at text positions 16 and 17. */
  function DashLanes(digits: Ymm): Ymm {
    Or(ShuffleEpi8(digits, PrintShuffle()), DashRegister())
  }

  lemma {:induction false} OrBits(x: bv8)
    ensures x | 0 == x && 0 | x == x
  {
  }

  lemma {:induction false} OrZeros(a: seq<bv8>, zeros: seq<bv8>)
    requires |a| == |zeros| && forall i :: 0 <= i < |zeros| ==> zeros[i] == 0
    ensures Or(a, zeros) == a && Or(zeros, a) == a
  {
    forall i | 0 <= i < |a|
      ensures Or(a, zeros)[i] == a[i] && Or(zeros, a)[i] == a[i]
    {
      OrBits(a[i]);
    }
  }

  lemma {:induction false} OrAppend(a: seq<bv8>, b: seq<bv8>, c: seq<bv8>, d: seq<bv8>)
    requires |a| == |b| && |c| == |d|
    ensures Or(a + c, b + d) == Or(a, b) + Or(c, d)
  {
  }

  /** A lane of three parts of digits with gaps, into which the dashes go. */
  lemma {:induction false} FillGaps(a: seq<bv8>, b: seq<bv8>, c: seq<bv8>, za: seq<bv8>, zb: seq<bv8>, zc: seq<bv8>)
    requires |a| == |za| && |b| == |zb| && |c| == |zc|
    requires forall i :: 0 <= i < |za| ==> za[i] == 0
    requires forall i :: 0 <= i < |zb| ==> zb[i] == 0
    requires forall i :: 0 <= i < |zc| ==> zc[i] == 0
    ensures Or(a + [0] + b + [0] + c, za + [DASH] + zb + [DASH] + zc) == a + [DASH] + b + [DASH] + c
  {
    hide Or;
    OrAppend(a + [0] + b + [0], za + [DASH] + zb + [DASH], c, zc);
    OrAppend(a + [0] + b, za + [DASH] + zb, [0], [DASH]);
    OrAppend(a + [0], za + [DASH], b, zb);
    OrAppend(a, za, [0], [DASH]);
    OrZeros(a, za);
    OrZeros(b, zb);
    OrZeros(c, zc);
    OrZeros([DASH], [0]);
  }

  function Zeros(n: nat): seq<bv8> {
    seq(n, _ => 0)
  }

  lemma {:induction false} DashHalves()
    ensures DashRegister()[..16] == Zeros(8) + [DASH] + Zeros(4) + [DASH] + Zeros(2)
    ensures DashRegister()[16..] == Zeros(2) + [DASH] + Zeros(4) + [DASH] + Zeros(8)
  {
    hide DashRegister;
    DashPositions();
  }

  lemma {:induction false} TextHalves(d: Ymm)
    ensures WithDashes(d)[..16] == d[..8] + [DASH] + d[8..12] + [DASH] + d[12..14]
    ensures WithDashes(d)[18..32] == [DASH] + d[16..20] + [DASH] + d[20..28]
  {
  }

  lemma {:induction false} DashLow(d: Ymm)
    ensures Or(ShuffleLane(d[..16], PrintShuffle()[..16]), DashRegister()[..16]) == WithDashes(d)[..16]
  {
    hide PrintShuffle, DashRegister, ShuffleLane, Or, WithDashes;
    PrintShuffleLow(d[..16]);
    DashHalves();
    TextHalves(d);
    assert d[..16][..8] == d[..8] && d[..16][8..12] == d[8..12] && d[..16][12..14] == d[12..14];
    FillGaps(d[..8], d[8..12], d[12..14], Zeros(8), Zeros(4), Zeros(2));
  }

  lemma {:induction false} DashHigh(d: Ymm)
    ensures Or(ShuffleLane(d[16..], PrintShuffle()[16..]), DashRegister()[16..]) == [0, 0] + WithDashes(d)[18..32]
  {
    hide PrintShuffle, DashRegister, ShuffleLane, Or, WithDashes;
    PrintShuffleHigh(d[16..]);
    DashHalves();
    TextHalves(d);
    var b, c := d[16..][..4], d[16..][4..12];
    assert b == d[16..20] && c == d[20..28];
    assert [0, 0, 0] + b + [0] + c == Zeros(2) + [0] + b + [0] + c;
    FillGaps(Zeros(2), b, c, Zeros(2), Zeros(4), Zeros(8));
    assert Zeros(2) + [DASH] + b + [DASH] + c == [0, 0] + ([DASH] + b + [DASH] + c);
  }

  lemma {:induction false} DashLanesCorrect(d: Ymm)
    ensures DashLanes(d) == WithDashes(d)[..16] + [0, 0] + WithDashes(d)[18..32]
  {
    hide PrintShuffle, DashRegister, ShuffleLane, Or, WithDashes;
    var r := DashRegister();
    var low, high := ShuffleLane(d[..16], PrintShuffle()[..16]), ShuffleLane(d[16..], PrintShuffle()[16..]);
    assert r == r[..16] + r[16..];
    OrAppend(low, r[..16], high, r[16..]);
    DashLow(d);
    DashHigh(d);
    assert WithDashes(d)[..16] + ([0, 0] + WithDashes(d)[18..32])
      == WithDashes(d)[..16] + [0, 0] + WithDashes(d)[18..32];
  }

  /** The first store with the two small ones over it. */
  lemma {:induction false} StoresMakeText(d: Ymm, was: seq<bv8>)
    requires |was| >= 36
    ensures var lanes := WithDashes(d)[..16] + [0, 0] + WithDashes(d)[18..32];
      Overwritten(Overwritten(Overwritten(was, 0, lanes), 16, d[14..16]), 32, d[28..32]) == WithDashes(d) + was[36..]
  {
    var lanes := WithDashes(d)[..16] + [0, 0] + WithDashes(d)[18..32];
    assert Overwritten(was, 0, lanes) == lanes + was[32..];
    assert Overwritten(lanes + was[32..], 16, d[14..16]) == WithDashes(d)[..32] + was[32..];
  }

  /** Writes 36 characters: one full store, then the two pieces that no lane of the shuffle can reach. */
  method M128ItoS(x: Xmm, mem: array<bv8>)
    requires mem.Length >= 36
    modifies mem
    ensures mem[..36] == Text(x)
    ensures mem[36..] == old(mem[36..])
  {
    hide DigitLanes, DashLanes, Digits, WithDashes, Overwritten;
    var undefined: Xmm :| true;
    var res := DigitLanes(x, undefined);
    DigitLanesCorrect(x, undefined);
    var resd := DashLanes(res);
    DashLanesCorrect(res);
    Store(mem, 0, resd);
    Store(mem, 16, res[14..16]);
    Store(mem, 32, res[28..32]);
    StoresMakeText(res, old(mem[..]));
    assert mem[..] == Text(x) + old(mem[36..]);
  }

  // ----- stom128i

  function ParseShuffle(): Ymm {
    SetEpi32(0x80808080, 0x0f0e0d0c, 0x0b0a0908, 0x06050403, 0x80800f0e, 0x0c0b0a09, 0x07060504, 0x03020100)
  }

  lemma {:induction false} ParseShuffleLowControl()
    ensures ParseShuffle()[..16] == [0, 1, 2, 3, 4, 5, 6, 7, 9, 10, 11, 12, 14, 15, 0x80, 0x80]
  {
  }

  lemma {:induction false} ParseShuffleLowBy(v: Xmm, control: Xmm)
    requires control == [0, 1, 2, 3, 4, 5, 6, 7, 9, 10, 11, 12, 14, 15, 0x80, 0x80]
    ensures ShuffleLane(v, control) == v[..8] + v[9..13] + v[14..] + [0, 0]
  {
  }

  lemma {:induction false} ParseShuffleLow(v: Xmm)
    ensures ShuffleLane(v, ParseShuffle()[..16]) == v[..8] + v[9..13] + v[14..] + [0, 0]
  {
    hide ShuffleLane, ParseShuffle;
    ParseShuffleLowControl();
    ParseShuffleLowBy(v, ParseShuffle()[..16]);
  }

  lemma {:induction false} ParseShuffleHighControl()
    ensures ParseShuffle()[16..] == [3, 4, 5, 6, 8, 9, 10, 11, 12, 13, 14, 15, 0x80, 0x80, 0x80, 0x80]
  {
  }

  lemma {:induction false} ParseShuffleHighBy(v: Xmm, control: Xmm)
    requires control == [3, 4, 5, 6, 8, 9, 10, 11, 12, 13, 14, 15, 0x80, 0x80, 0x80, 0x80]
    ensures ShuffleLane(v, control) == v[3..7] + v[8..] + [0, 0, 0, 0]
  {
  }

  lemma {:induction false} ParseShuffleHigh(v: Xmm)
    ensures ShuffleLane(v, ParseShuffle()[16..]) == v[3..7] + v[8..] + [0, 0, 0, 0]
  {
    hide ShuffleLane, ParseShuffle;
    ParseShuffleHighControl();
    ParseShuffleHighBy(v, ParseShuffle()[16..]);
  }

  /** The 32 digit characters of a text, gathered by a lane shuffle and two inserts. */
  function GatherDigits(t: seq<bv8>): Ymm
    requires |t| == 36
  {
    InsertBytes(InsertBytes(ShuffleEpi8(t[..32], ParseShuffle()), 14, t[16..18]), 28, t[32..36])
  }

  lemma {:induction false} GatherDigitsCorrect(t: seq<bv8>)
    requires |t| == 36
    ensures GatherDigits(t) == WithoutDashes(t)
  {
    hide ParseShuffle, ShuffleLane;
    ParseShuffleLow(t[..16]);
    ParseShuffleHigh(t[16..32]);
    assert t[..32][..16] == t[..16] && t[..32][16..] == t[16..32];
    var low, high := t[..8] + t[9..13] + t[14..16], t[19..23] + t[24..32];
    assert ShuffleEpi8(t[..32], ParseShuffle()) == low + [0, 0] + high + [0, 0, 0, 0] by {
      assert t[16..32][3..7] == t[19..23] && t[16..32][8..] == t[24..32] && t[..16][14..] == t[14..16];
    }
    assert InsertBytes(low + [0, 0] + high + [0, 0, 0, 0], 14, t[16..18]) == low + t[16..18] + high + [0, 0, 0, 0];
  }

  /** Subtracts 0x30 from digits and 0x57 from letters, chosen by one bit of the character. */
  function CharValues(x: Ymm): Ymm {
    var a := SubEpi8(x, Set1(0x2f));
    var alpha := SlliEpi64(And(a, Set1(0x20)), 2);
    SubEpi8(a, BlendvEpi8(Set1(0x01), Set1(0x28), alpha))
  }

  lemma {:induction false} CharValuesCorrect(d: Ymm)
    requires forall i :: 0 <= i < 32 ==> IsHexChar(d[i])
    ensures forall i :: 0 <= i < 32 ==> CharValues(d)[i] == HexValue(d[i]) < 16
  {
    hide SlliEpi64;
    ShiftLeft(And(SubEpi8(d, Set1(0x2f)), Set1(0x20)), 2);
  }

  function Unweave(): Ymm {
    SetEpi32(0x0f0d0b09, 0x0e0c0a08, 0x07050301, 0x06040200, 0x0f0d0b09, 0x0e0c0a08, 0x07050301, 0x06040200)
  }

  function UnweaveShift(): Ymm {
    SetEpi32(0, 4, 0, 4, 0, 4, 0, 4)
  }

  /** Even digits go into one 32-bit lane and odd ones into its neighbour; shifting the first by four
      and adding the two makes whole bytes. */
  function PackNibbles(a: Ymm): Xmm {
    var shifted := SllvEpi32(ShuffleEpi8(a, Unweave()), UnweaveShift());
    Low(Permute4x64(HaddEpi32(shifted, Set1(0)), 0, 2, 0, 0))
  }

  lemma {:induction false} UnweaveLaneControl()
    ensures Unweave()[..16] == [0, 2, 4, 6, 1, 3, 5, 7, 8, 10, 12, 14, 9, 11, 13, 15]
  {
  }

  lemma {:induction false} UnweaveLaneBy(v: Xmm, control: Xmm)
    requires control == [0, 2, 4, 6, 1, 3, 5, 7, 8, 10, 12, 14, 9, 11, 13, 15]
    ensures ShuffleLane(v, control)
         == [v[0], v[2], v[4], v[6], v[1], v[3], v[5], v[7], v[8], v[10], v[12], v[14], v[9], v[11], v[13], v[15]]
  {
  }

  lemma {:induction false} UnweaveLane(v: Xmm)
    ensures ShuffleLane(v, Unweave()[..16])
         == [v[0], v[2], v[4], v[6], v[1], v[3], v[5], v[7], v[8], v[10], v[12], v[14], v[9], v[11], v[13], v[15]]
  {
    hide ShuffleLane, Unweave;
    UnweaveLaneControl();
    UnweaveLaneBy(v, Unweave()[..16]);
  }

  lemma {:induction false} UnweaveBothLanes()
    ensures Unweave()[16..] == Unweave()[..16]
  {
  }

  lemma {:induction false} UnweaveShiftLanes()
    ensures var c := UnweaveShift()[..16]; Lane32(c, 0) == Lane32(c, 8) == 4 && Lane32(c, 4) == Lane32(c, 12) == 0
    ensures UnweaveShift()[16..] == UnweaveShift()[..16]
  {
    var c := UnweaveShift()[..16];
    assert c == [4, 0, 0, 0, 0, 0, 0, 0, 4, 0, 0, 0, 0, 0, 0, 0];
  }

  lemma {:induction false} LaneOfBytes(w: bv32)
    ensures Lane32(Bytes32(w), 0) == w
  {
  }

  lemma {:induction false} LaneAt(v: seq<bv8>, at: nat)
    requires at + 4 <= |v|
    ensures Lane32(v, at) == Lane32(v[at..at + 4], 0)
  {
  }

  lemma {:induction false} FourLanes(b0: seq<bv8>, b1: seq<bv8>, b2: seq<bv8>, b3: seq<bv8>)
    requires |b0| == |b1| == |b2| == |b3| == 4
    ensures var b := b0 + b1 + b2 + b3; b[0..4] == b0 && b[4..8] == b1 && b[8..12] == b2 && b[12..16] == b3
  {
  }

  /** Reads a lane of a variable shift back from its bytes. */
  lemma {:induction false} SllvLaneAt(v: Xmm, c: Xmm, k: nat)
    requires k < 4
    ensures Lane32(SllvLane(v, c), 4 * k) == Sllv32(Lane32(v, 4 * k), Lane32(c, 4 * k))
  {
    hide Lane32, Bytes32, Sllv32;
    var w := Sllv32(Lane32(v, 4 * k), Lane32(c, 4 * k));
    FourLanes(Bytes32(Sllv32(Lane32(v, 0), Lane32(c, 0))), Bytes32(Sllv32(Lane32(v, 4), Lane32(c, 4))),
              Bytes32(Sllv32(Lane32(v, 8), Lane32(c, 8))), Bytes32(Sllv32(Lane32(v, 12), Lane32(c, 12))));
    assert SllvLane(v, c)[4 * k..4 * k + 4] == Bytes32(w);
    LaneAt(SllvLane(v, c), 4 * k);
    LaneOfBytes(w);
  }

  predicate AllNibbles(v: Xmm) {
    forall i :: 0 <= i < 16 ==> v[i] < 16
  }

  function PairSum(v: Xmm, at: nat): bv32
    requires at + 8 <= 16
  {
    Add32(Sllv32(Lane32(v, at), 4), Sllv32(Lane32(v, at + 4), 0))
  }

  /** Four high and four low nibbles make four bytes, without a carry from one byte to the next. */
  lemma {:induction false} PairSumBytes(v: Xmm, at: nat)
    requires at + 8 <= 16
    requires AllNibbles(v)
    ensures Bytes32(PairSum(v, at))
         == [Byte(v[at], v[at + 4]), Byte(v[at + 1], v[at + 5]), Byte(v[at + 2], v[at + 6]), Byte(v[at + 3], v[at + 7])]
  {
  }

  /** What a shift and an addition make of any bytes; a carry stays in its 32-bit lane. */
  lemma {:induction false} SummedLane(v: Xmm, c: Xmm)
    requires Lane32(c, 0) == Lane32(c, 8) == 4 && Lane32(c, 4) == Lane32(c, 12) == 0
    ensures HaddPair(SllvLane(v, c)) == Bytes32(PairSum(v, 0)) + Bytes32(PairSum(v, 8))
  {
    hide Lane32, Bytes32, Sllv32, Add32, SllvLane;
    SllvLaneAt(v, c, 0);
    SllvLaneAt(v, c, 1);
    SllvLaneAt(v, c, 2);
    SllvLaneAt(v, c, 3);
  }

  lemma {:induction false} PackedLane(v: Xmm, c: Xmm)
    requires AllNibbles(v)
    requires Lane32(c, 0) == Lane32(c, 8) == 4 && Lane32(c, 4) == Lane32(c, 12) == 0
    ensures HaddPair(SllvLane(v, c))
         == [Byte(v[0], v[4]), Byte(v[1], v[5]), Byte(v[2], v[6]), Byte(v[3], v[7])]
          + [Byte(v[8], v[12]), Byte(v[9], v[13]), Byte(v[10], v[14]), Byte(v[11], v[15])]
  {
    hide Lane32, Bytes32, PairSum, HaddPair, SllvLane, Byte, AllNibbles;
    SummedLane(v, c);
    PairSumBytes(v, 0);
    PairSumBytes(v, 8);
  }

  lemma {:induction false} ShuffleKeepsNibbles(v: Xmm, control: Xmm)
    requires AllNibbles(v)
    ensures AllNibbles(ShuffleLane(v, control))
  {
  }

  lemma {:induction false} PackedHalves(a: Ymm)
    requires Unweave()[16..] == Unweave()[..16] && UnweaveShift()[16..] == UnweaveShift()[..16]
    ensures var u, s := Unweave()[..16], UnweaveShift()[..16];
      PackNibbles(a) == HaddPair(SllvLane(ShuffleLane(a[..16], u), s)) + HaddPair(SllvLane(ShuffleLane(a[16..], u), s))
  {
    hide ShuffleLane, Unweave, UnweaveShift, SllvLane, HaddPair;
  }

  /** Sixteen nibbles make eight bytes. */
  lemma {:induction false} PackedHalf(h: Xmm)
    requires AllNibbles(h)
    ensures HaddPair(SllvLane(ShuffleLane(h, Unweave()[..16]), UnweaveShift()[..16]))
      == seq(8, k requires 0 <= k < 8 => Byte(h[2 * k], h[2 * k + 1]))
  {
    hide Lane32, ShuffleLane, Unweave, UnweaveShift, SllvLane, HaddPair, Byte, AllNibbles;
    UnweaveLane(h);
    UnweaveShiftLanes();
    ShuffleKeepsNibbles(h, Unweave()[..16]);
    PackedLane(ShuffleLane(h, Unweave()[..16]), UnweaveShift()[..16]);
  }

  lemma {:induction false} PackNibblesCorrect(a: Ymm)
    requires forall i :: 0 <= i < 32 ==> a[i] < 16
    ensures PackNibbles(a) == seq(16, k requires 0 <= k < 16 => Byte(a[2 * k], a[2 * k + 1]))
  {
    hide Lane32, ShuffleLane, Unweave, UnweaveShift, SllvLane, HaddPair, HaddLane, Byte, PackNibbles;
    UnweaveBothLanes();
    UnweaveShiftLanes();
    PackedHalf(a[..16]);
    PackedHalf(a[16..]);
    PackedHalves(a);
  }

  // ----- The whole parser

  function StoM128I(t: seq<bv8>): Xmm
    requires |t| == 36
  {
    PackNibbles(CharValues(GatherDigits(t)))
  }

  /** On lower-case hex digits the vector parser is the plain one, whatever stands at the dashes. */
  lemma {:induction false} ParserRefinesPlainForm(t: seq<bv8>)
    requires |t| == 36
    requires forall i :: 0 <= i < 32 ==> IsHexChar(WithoutDashes(t)[i])
    ensures StoM128I(t) == Packed(WithoutDashes(t))
  {
    hide GatherDigits, CharValues, PackNibbles, WithoutDashes, IsHexChar, HexValue, Byte;
    GatherDigitsCorrect(t);
    CharValuesCorrect(WithoutDashes(t));
    PackNibblesCorrect(CharValues(WithoutDashes(t)));
  }

  lemma {:induction false} HexRoundTrip(n: bv8)
    requires n < 16
    ensures IsHexChar(HexChar(n)) && HexValue(HexChar(n)) == n
  {
  }

  lemma {:induction false} NibblesOfByte(b: bv8)
    ensures HighNibble(b) < 16 && LowNibble(b) < 16 && Byte(HighNibble(b), LowNibble(b)) == b
  {
  }

  lemma {:induction false} DashesOff(d: Ymm)
    ensures WithoutDashes(WithDashes(d)) == d
  {
    var t := WithDashes(d);
    assert t[..8] == d[..8] && t[9..13] == d[8..12] && t[14..18] == d[12..16];
    assert t[19..23] == d[16..20] && t[24..] == d[20..];
  }

  lemma {:induction false} DashesOn(t: seq<bv8>)
    requires |t| == 36 && t[8] == t[13] == t[18] == t[23] == DASH
    ensures WithDashes(WithoutDashes(t)) == t
  {
    var d := WithoutDashes(t);
    assert d[..8] == t[..8] && d[8..12] == t[9..13] && d[12..16] == t[14..18];
    assert d[16..20] == t[19..23] && d[20..] == t[24..];
  }

  lemma {:induction false} TextIsCanonical(x: Xmm)
    ensures Canonical(Text(x)) && WithoutDashes(Text(x)) == Digits(x)
  {
    hide WithoutDashes, HexChar, IsHexChar, Nibble;
    DashesOff(Digits(x));
    forall i | 0 <= i < 32
      ensures IsHexChar(Digits(x)[i])
    {
      DigitIsHex(x, i);
    }
  }

  lemma {:induction false} DigitIsHex(x: Xmm, i: nat)
    requires i < 32
    ensures IsHexChar(Digits(x)[i])
  {
  }

  /** Parsing what was printed gives the value back, for all 128-bit values. */
  lemma {:induction false} ParseOfPrint(x: Xmm)
    ensures StoM128I(Text(x)) == x
  {
    hide StoM128I, Text, HexChar, HexValue, HighNibble, LowNibble, Byte;
    TextIsCanonical(x);
    ParserRefinesPlainForm(Text(x));
    forall k | 0 <= k < 16
      ensures Packed(Digits(x))[k] == x[k]
    {
      NibblesOfByte(x[k]);
      HexRoundTrip(HighNibble(x[k]));
      HexRoundTrip(LowNibble(x[k]));
    }
  }

  lemma {:induction false} NibblesOfPair(high: bv8, low: bv8)
    requires high < 16 && low < 16
    ensures HighNibble(Byte(high, low)) == high && LowNibble(Byte(high, low)) == low
  {
  }

  lemma {:induction false} HexCharOfValue(c: bv8)
    requires IsHexChar(c)
    ensures HexValue(c) < 16 && HexChar(HexValue(c)) == c
  {
  }

  /** Printing what was parsed gives the text back exactly when the text is canonical: lower-case
      hex digits and dashes in their places. */
  lemma {:induction false} PrintOfParse(t: seq<bv8>)
    requires |t| == 36
    ensures Text(StoM128I(t)) == t <==> Canonical(t)
  {
    hide StoM128I, HexChar, HexValue, HighNibble, LowNibble, Byte, IsHexChar, WithDashes, WithoutDashes;
    TextIsCanonical(StoM128I(t));
    if Canonical(t) {
      ParserRefinesPlainForm(t);
      DashesOn(t);
      var d := WithoutDashes(t);
      forall i | 0 <= i < 32
        ensures Digits(Packed(d))[i] == d[i]
      {
        HexCharOfValue(d[i / 2 * 2]);
        HexCharOfValue(d[i / 2 * 2 + 1]);
        NibblesOfPair(HexValue(d[i / 2 * 2]), HexValue(d[i / 2 * 2 + 1]));
      }
      assert Digits(Packed(d)) == d;
    }
  }

  // ----- Upper-case digits

  predicate IsUpperHexChar(c: bv8) {
    0x41 <= c <= 0x46
  }

  /** The value of a hex digit in either case. */
  function DigitValue(c: bv8): bv8 {
    if IsUpperHexChar(c) then c - 0x41 + 10 else HexValue(c)
  }

  predicate IsHexText(d: Ymm) {
    forall i :: 0 <= i < 32 ==> IsHexChar(d[i]) || IsUpperHexChar(d[i])
  }

  predicate HasUpperCase(d: Ymm) {
    exists i :: 0 <= i < 32 && IsUpperHexChar(d[i])
  }

  /** What 32 hex digits in either case mean, two digits a byte. */
  function Meant(d: Ymm): Xmm {
    seq(16, k requires 0 <= k < 16 => Byte(DigitValue(d[2 * k]), DigitValue(d[2 * k + 1])))
  }

  /** An upper-case digit is taken for a digit character, which makes it seven too large. */
  lemma {:induction false} CharValuesOfHex(d: Ymm)
    requires IsHexText(d)
    ensures forall i :: 0 <= i < 32 ==>
      && DigitValue(d[i]) < 16
      && CharValues(d)[i] == DigitValue(d[i]) + if IsUpperHexChar(d[i]) then 7 else 0
  {
    hide SlliEpi64;
    ShiftLeft(And(SubEpi8(d, Set1(0x2f)), Set1(0x20)), 2);
  }

  function Unwoven(h: Xmm): Xmm {
    [h[0], h[2], h[4], h[6], h[1], h[3], h[5], h[7], h[8], h[10], h[12], h[14], h[9], h[11], h[13], h[15]]
  }

  function Sums(h: Xmm): (r: seq<bv8>)
    ensures |r| == 8
  {
    Bytes32(PairSum(Unwoven(h), 0)) + Bytes32(PairSum(Unwoven(h), 8))
  }

  lemma {:induction false} SummedHalf(h: Xmm)
    ensures HaddPair(SllvLane(ShuffleLane(h, Unweave()[..16]), UnweaveShift()[..16])) == Sums(h)
  {
    hide Lane32, Bytes32, PairSum, ShuffleLane, Unweave, UnweaveShift, SllvLane, HaddPair;
    UnweaveLane(h);
    UnweaveShiftLanes();
    SummedLane(ShuffleLane(h, Unweave()[..16]), UnweaveShift()[..16]);
  }

  lemma {:induction false} PackNibblesSums(a: Ymm)
    ensures PackNibbles(a) == Sums(a[..16]) + Sums(a[16..])
  {
    hide ShuffleLane, Unweave, UnweaveShift, SllvLane, HaddPair, PackNibbles, Sums;
    UnweaveBothLanes();
    UnweaveShiftLanes();
    PackedHalves(a);
    SummedHalf(a[..16]);
    SummedHalf(a[16..]);
  }

  predicate NibblePair(v: Xmm, i: nat) {
    i + 4 < 16 && v[i] < 16 && v[i + 4] < 16
  }

  /** Below the first number over 15 of a lane there is no carry. */
  lemma {:induction false} PairSumAt(v: Xmm, at: nat, k: nat)
    requires at + 8 <= 16 && k < 4 && forall i :: at <= i < at + k ==> NibblePair(v, i)
    ensures Bytes32(PairSum(v, at))[k] == (v[at + k] << 4) + v[at + 4 + k]
  {
    hide PairSum, Bytes32;
    match k
    case 0 => PairSumAt0(v, at);
    case 1 => PairSumAt1(v, at);
    case 2 => PairSumAt2(v, at);
    case 3 => PairSumAt3(v, at);
  }

  lemma {:induction false} PairSumAt0(v: Xmm, at: nat)
    requires at + 8 <= 16
    ensures Bytes32(PairSum(v, at))[0] == (v[at] << 4) + v[at + 4]
  {
  }

  lemma {:induction false} PairSumAt1(v: Xmm, at: nat)
    requires at + 8 <= 16 && NibblePair(v, at)
    ensures Bytes32(PairSum(v, at))[1] == (v[at + 1] << 4) + v[at + 5]
  {
  }

  lemma {:induction false} PairSumAt2(v: Xmm, at: nat)
    requires at + 8 <= 16 && NibblePair(v, at) && NibblePair(v, at + 1)
    ensures Bytes32(PairSum(v, at))[2] == (v[at + 2] << 4) + v[at + 6]
  {
  }

  lemma {:induction false} PairSumAt3(v: Xmm, at: nat)
    requires at + 8 <= 16 && NibblePair(v, at) && NibblePair(v, at + 1) && NibblePair(v, at + 2)
    ensures Bytes32(PairSum(v, at))[3] == (v[at + 3] << 4) + v[at + 7]
  {
  }

  lemma {:induction false} SumsAt(h: Xmm, k: nat)
    requires k < 8 && forall i :: 0 <= i < 2 * k ==> h[i] < 16
    ensures Sums(h)[k] == (h[2 * k] << 4) + h[2 * k + 1]
  {
    hide Bytes32, PairSum;
    if k < 4 {
      PairSumAt(Unwoven(h), 0, k);
    } else {
      PairSumAt(Unwoven(h), 8, k - 4);
    }
  }

  /** The byte of the first number over 15 is made from its own pair. */
  lemma {:induction false} PackNibblesAt(a: Ymm, k: nat)
    requires k < 16 && forall i :: 0 <= i < 2 * k ==> a[i] < 16
    ensures PackNibbles(a)[k] == (a[2 * k] << 4) + a[2 * k + 1]
  {
    hide PackNibbles, Sums;
    PackNibblesSums(a);
    if k < 8 {
      SumsAt(a[..16], k);
    } else {
      SumsAt(a[16..], k - 8);
    }
  }

  predicate UpperInByte(d: Ymm, k: nat) {
    k < 16 && (IsUpperHexChar(d[2 * k]) || IsUpperHexChar(d[2 * k + 1]))
  }

  predicate FirstUpper(d: Ymm, k: nat) {
    UpperInByte(d, k) && forall j: nat :: j < k ==> !UpperInByte(d, j)
  }

  lemma {:induction false} FindFirstUpper(d: Ymm, k: nat) returns (first: nat)
    requires UpperInByte(d, k)
    ensures FirstUpper(d, first) && first <= k
    decreases k
  {
    if j: nat :| j < k && UpperInByte(d, j) {
      first := FindFirstUpper(d, j);
    } else {
      first := k;
    }
  }

  /** Seven more in either digit changes the byte. */
  lemma {:induction false} RaisedByte(high: bv8, low: bv8, upperHigh: bool, upperLow: bool)
    requires high < 16 && low < 16 && (upperHigh || upperLow)
    ensures ((high + if upperHigh then 7 else 0) << 4) + (low + if upperLow then 7 else 0) != Byte(high, low)
  {
  }

  /** The first byte with an upper-case digit is read wrong, each such digit counting seven too much. */
  lemma {:induction false} FirstUpperMisread(t: seq<bv8>, k: nat)
    requires |t| == 36 && IsHexText(WithoutDashes(t)) && FirstUpper(WithoutDashes(t), k)
    ensures var d := WithoutDashes(t);
      var high := DigitValue(d[2 * k]) + if IsUpperHexChar(d[2 * k]) then 7 else 0;
      var low := DigitValue(d[2 * k + 1]) + if IsUpperHexChar(d[2 * k + 1]) then 7 else 0;
      StoM128I(t)[k] == (high << 4) + low != Meant(d)[k]
  {
    hide GatherDigits, CharValues, PackNibbles, WithoutDashes, IsHexChar, DigitValue, IsUpperHexChar, Byte;
    var d := WithoutDashes(t);
    GatherDigitsCorrect(t);
    CharValuesOfHex(d);
    forall i | 0 <= i < 2 * k
      ensures CharValues(d)[i] < 16
    {
      assert !UpperInByte(d, i / 2);
    }
    PackNibblesAt(CharValues(d), k);
    RaisedByte(DigitValue(d[2 * k]), DigitValue(d[2 * k + 1]), IsUpperHexChar(d[2 * k]), IsUpperHexChar(d[2 * k + 1]));
  }

  lemma {:induction false} MeantByLowerCase(d: Ymm)
    requires IsHexText(d) && !HasUpperCase(d)
    ensures Meant(d) == Packed(d) && forall i :: 0 <= i < 32 ==> IsHexChar(d[i])
  {
    hide Byte, HexValue, IsHexChar, IsUpperHexChar;
  }

  /** Hex digits in either case are read right exactly when none of them is in upper case. */
  lemma {:induction false} ReadRightExactly(t: seq<bv8>)
    requires |t| == 36 && IsHexText(WithoutDashes(t))
    ensures StoM128I(t) == Meant(WithoutDashes(t)) <==> !HasUpperCase(WithoutDashes(t))
  {
    hide StoM128I, Meant, Packed, WithoutDashes, IsHexText, IsUpperHexChar, IsHexChar;
    var d := WithoutDashes(t);
    if i :| 0 <= i < 32 && IsUpperHexChar(d[i]) {
      assert 2 * (i / 2) == i || 2 * (i / 2) + 1 == i;
      var k := FindFirstUpper(d, i / 2);
      FirstUpperMisread(t, k);
    } else {
      MeantByLowerCase(d);
      ParserRefinesPlainForm(t);
    }
  }

  // ----- The generator

  /** The two masks of getUUID: version 4 in the high nibble of byte 6, variant 10 in the top bits of byte 8. */
  function Stamped(n: Xmm): Xmm {
    var andMask := SetEpi64(0xFFFFFFFFFFFFFF3F, 0xFF0FFFFFFFFFFFFF);
    var orMask := SetEpi64(0x0000000000000080, 0x0040000000000000);
    Or(And(n, andMask), orMask)
  }

  lemma {:induction false} StampedBytes(n: Xmm)
    ensures Stamped(n)[6] == (n[6] & 0x0f) | 0x40
    ensures Stamped(n)[8] == (n[8] & 0x3f) | 0x80
    ensures forall i :: 0 <= i < 16 && i != 6 && i != 8 ==> Stamped(n)[i] == n[i]
  {
  }

  /** The text position of nibble i, past the dashes before it. */
  function Position(i: nat): (p: nat)
    requires i < 32
    ensures p < 36
  {
    if i < 8 then i else if i < 12 then i + 1 else if i < 16 then i + 2 else if i < 20 then i + 3 else i + 4
  }

  lemma {:induction false} CharAt(x: Xmm, i: nat)
    requires i < 32
    ensures Text(x)[Position(i)] == HexChar(Nibble(x, i))
  {
  }

  lemma {:induction false} StampedNibbles(n: Xmm)
    ensures Nibble(Stamped(n), 12) == 4
    ensures Nibble(Stamped(n), 16) in {8, 9, 10, 11} && Nibble(Stamped(n), 16) & 0x3 == Nibble(n, 16) & 0x3
  {
    hide Stamped;
    StampedBytes(n);
  }

  lemma {:induction false} StampedChars(n: Xmm)
    ensures Text(Stamped(n))[14] == '4' as bv8
    ensures Text(Stamped(n))[19] in {'8' as bv8, '9' as bv8, 'a' as bv8, 'b' as bv8}
  {
    hide Stamped, Nibble, Text;
    StampedNibbles(n);
    CharAt(Stamped(n), 12);
    CharAt(Stamped(n), 16);
  }

  /** A generated text reads '4' at position 14 and 8, 9, a or b at position 19; the other two bits
      there and all other characters are those of the random value. */
  lemma {:induction false} GeneratedText(n: Xmm)
    ensures Text(Stamped(n))[14] == '4' as bv8
    ensures Text(Stamped(n))[19] in {'8' as bv8, '9' as bv8, 'a' as bv8, 'b' as bv8}
    ensures Nibble(Stamped(n), 16) & 0x3 == Nibble(n, 16) & 0x3
    ensures forall p :: 0 <= p < 36 && p != 14 && p != 19 ==> Text(Stamped(n))[p] == Text(n)[p]
  {
    hide Stamped, HexChar, Nibble;
    StampedNibbles(n);
    StampedChars(n);
    forall i | 0 <= i < 32 && i != 12 && i != 16
      ensures Digits(Stamped(n))[i] == Digits(n)[i]
    {
      OtherNibble(n, i);
    }
  }

  lemma {:induction false} OtherNibble(n: Xmm, i: nat)
    requires i < 32 && i != 12 && i != 16
    ensures Nibble(Stamped(n), i) == Nibble(n, i)
  {
    hide Stamped;
    StampedBytes(n);
  }

  /** A generator of 64-bit words, seen as the words it will deliver and how many it has delivered. */
  class UuidGenerator {
    const words: nat -> bv64
    var drawn: nat

    constructor (words: nat -> bv64)
      ensures this.words == words && drawn == 0
    {
      this.words := words;
      drawn := 0;
    }

    method NextWord() returns (w: bv64)
      modifies this
      ensures w == words(old(drawn)) && drawn == old(drawn) + 1
    {
      w := words(drawn);
      drawn := drawn + 1;
    }

    /** Draws two words; the language leaves open which of the two arguments is drawn first. */
    method GetUuid(highFirst: bool) returns (uuid: Xmm)
      modifies this
      ensures drawn == old(drawn) + 2
      ensures var w, w' := words(old(drawn)), words(old(drawn) + 1);
        uuid == Stamped(if highFirst then SetEpi64(w, w') else SetEpi64(w', w))
    {
      var w := NextWord();
      var w' := NextWord();
      var n := if highFirst then SetEpi64(w, w') else SetEpi64(w', w);
      var andMask := SetEpi64(0xFFFFFFFFFFFFFF3F, 0xFF0FFFFFFFFFFFFF);
      var orMask := SetEpi64(0x0000000000000080, 0x0040000000000000);
      uuid := Or(And(n, andMask), orMask);
    }
  }

  /** The UUID object: sixteen bytes that a text can overwrite and that can be written out. */
  class Value {
    var data: Xmm

    constructor (uuid: Xmm)
      ensures data == uuid
    {
      data := uuid;
    }

    method FromStr(raw: seq<bv8>)
      requires |raw| == 36
      modifies this
      ensures data == StoM128I(raw)
      ensures Canonical(raw) <==> Text(data) == raw
    {
      data := StoM128I(raw);
      PrintOfParse(raw);
    }

    method Str() returns (text: array<bv8>)
      ensures fresh(text) && text.Length == 36
      ensures text[..] == Text(data) && StoM128I(text[..]) == data
    {
      text := new bv8[36];
      M128ItoS(data, text);
      assert text[..] == text[..36];
      ParseOfPrint(data);
    }
  }
}
