/** Packing bits into bytes and voltages, and back: core/libcorrect/util/error-sim.c.

    Voltages are real numbers, so rounding is not modelled. */
module Bpsk {
  type Byte = bv8

  /** The mask after k steps around a byte. */
  function MaskAt(k: nat): Byte {
    match k
    case 0 => 0x80
    case 1 => 0x40
    case 2 => 0x20
    case 3 => 0x10
    case 4 => 0x8
    case 5 => 0x4
    case 6 => 0x2
    case _ => 0x1
  }

  function NextMask(mask: Byte): Byte { if mask >> 1 == 0 then 0x80 else mask >> 1 }

  lemma MaskSteps(i: nat)
    ensures NextMask(MaskAt(i % 8)) == MaskAt((i + 1) % 8)
  {
    var k := i % 8;
    assert (i + 1) % 8 == if k == 7 then 0 else k + 1;
  }

  predicate Has(b: Byte, mask: Byte) { b & mask != 0 }

  /** The masks take the bits of a byte one by one, the highest first. */
  lemma HighestFirst(b: Byte)
    ensures Has(b, MaskAt(0)) <==> (b >> 7) & 1 == 1
    ensures Has(b, MaskAt(1)) <==> (b >> 6) & 1 == 1
    ensures Has(b, MaskAt(2)) <==> (b >> 5) & 1 == 1
    ensures Has(b, MaskAt(3)) <==> (b >> 4) & 1 == 1
    ensures Has(b, MaskAt(4)) <==> (b >> 3) & 1 == 1
    ensures Has(b, MaskAt(5)) <==> (b >> 2) & 1 == 1
    ensures Has(b, MaskAt(6)) <==> (b >> 1) & 1 == 1
    ensures Has(b, MaskAt(7)) <==> b & 1 == 1
  {
  }

  /** Bit i of a message, the highest bit of the first byte first. */
  predicate BitOf(msg: seq<Byte>, i: nat)
    requires i < 8 * |msg|
  {
    Has(msg[i / 8], MaskAt(i % 8))
  }

  // ---------------------------------------------------------------- encoding

  function Volts(msg: seq<Byte>, n: nat, volt: real): (r: seq<real>)
    requires n <= 8 * |msg|
    ensures |r| == n
  {
    seq(n, i requires 0 <= i < n => if BitOf(msg, i) then volt else -volt)
  }

  /** Bits as full soft bytes. */
  function Bits(msg: seq<Byte>, n: nat): (r: seq<nat>)
    requires n <= 8 * |msg|
    ensures |r| == n
  {
    seq(n, i requires 0 <= i < n => if BitOf(msg, i) then 255 else 0)
  }

  method EncodeBpsk(msg: seq<Byte>, voltages: array<real>, n: nat, volt: real)
    requires n <= 8 * |msg| && n <= voltages.Length
    modifies voltages
    ensures voltages[..n] == Volts(msg, n, volt)
    ensures forall i :: n <= i < voltages.Length ==> voltages[i] == old(voltages[i])
  {
    var mask: Byte := 0x80;
    for i := 0 to n
      invariant mask == MaskAt(i % 8)
      invariant forall k :: 0 <= k < i ==> voltages[k] == if BitOf(msg, k) then volt else -volt
      invariant forall k :: i <= k < voltages.Length ==> voltages[k] == old(voltages[k])
    {
      voltages[i] := if Has(msg[i / 8], mask) then volt else -volt;
      MaskSteps(i);
      mask := NextMask(mask);
    }
  }

  method Byte2Bit(bytes: seq<Byte>, bits: array<nat>, n: nat)
    requires n <= 8 * |bytes| && n <= bits.Length
    modifies bits
    ensures bits[..n] == Bits(bytes, n)
    ensures forall i :: n <= i < bits.Length ==> bits[i] == old(bits[i])
  {
    var mask: Byte := 0x80;
    for i := 0 to n
      invariant mask == MaskAt(i % 8)
      invariant forall k :: 0 <= k < i ==> bits[k] == if BitOf(bytes, k) then 255 else 0
      invariant forall k :: i <= k < bits.Length ==> bits[k] == old(bits[k])
    {
      bits[i] := if Has(bytes[i / 8], mask) then 255 else 0;
      MaskSteps(i);
      mask := NextMask(mask);
    }
  }

  // ---------------------------------------------------------------- decoding

  function Put(b: Byte, mask: Byte): Byte { b | mask }

  lemma PutSets(b: Byte, k: nat, m: nat)
    requires k < 8 && m < 8
    ensures Has(Put(b, MaskAt(k)), MaskAt(m)) == (k == m || Has(b, MaskAt(m)))
  {
  }

  function PutBit(msg: seq<Byte>, i: nat): (r: seq<Byte>)
    requires i < 8 * |msg|
    ensures |r| == |msg|
  {
    msg[i / 8 := Put(msg[i / 8], MaskAt(i % 8))]
  }

  lemma PutBitSets(msg: seq<Byte>, i: nat, b: nat)
    requires i < 8 * |msg| && b < 8 * |msg|
    ensures BitOf(PutBit(msg, i), b) == (b == i || BitOf(msg, b))
  {
    PutSets(msg[i / 8], i % 8, b % 8);
  }

  /** The decoding loop: set bits where the soft byte is above the middle. */
  function Gather(soft: seq<nat>, msg: seq<Byte>, n: nat): (r: seq<Byte>)
    requires n <= |soft| && n <= 8 * |msg|
    ensures |r| == |msg|
  {
    if n == 0 then msg else
    var r := Gather(soft, msg, n - 1);
    if soft[n - 1] > 127 then PutBit(r, n - 1) else r
  }

  method DecodeBpsk(soft: seq<nat>, msg: array<Byte>, n: nat)
    requires n <= |soft| && n <= 8 * msg.Length
    modifies msg
    ensures msg[..] == Gather(soft, old(msg[..]), n)
  {
    var mask: Byte := 0x80;
    for i := 0 to n
      invariant mask == MaskAt(i % 8)
      invariant msg[..] == Gather(soft, old(msg[..]), i)
    {
      if soft[i] > 127 { msg[i / 8] := Put(msg[i / 8], mask); }
      MaskSteps(i);
      mask := NextMask(mask);
    }
  }

  /** Decoding adds the bits it hears to those already set. */
  lemma {:induction false} GatherSets(soft: seq<nat>, msg: seq<Byte>, n: nat, b: nat)
    requires n <= |soft| && n <= 8 * |msg| && b < 8 * |msg|
    ensures BitOf(Gather(soft, msg, n), b) == ((b < n && soft[b] > 127) || BitOf(msg, b))
  {
    if n > 0 {
      GatherSets(soft, msg, n - 1, b);
      if soft[n - 1] > 127 { PutBitSets(Gather(soft, msg, n - 1), n - 1, b); }
    }
  }

  ghost predicate Zeroed(msg: seq<Byte>) { forall i :: 0 <= i < |msg| ==> msg[i] == 0 }

  lemma ZeroHasNoBits(msg: seq<Byte>, b: nat)
    requires Zeroed(msg) && b < 8 * |msg|
    ensures !BitOf(msg, b)
  {
  }

  /** Decoding into a zeroed buffer undoes the unpacking, for every number of bits. */
  lemma DecodeUndoesByte2Bit(msg: seq<Byte>, n: nat, buffer: seq<Byte>, b: nat)
    requires n <= 8 * |msg| && Zeroed(buffer) && n <= 8 * |buffer| && b < 8 * |buffer|
    ensures BitOf(Gather(Bits(msg, n), buffer, n), b) == (b < n && BitOf(msg, b))
  {
    GatherSets(Bits(msg, n), buffer, n, b);
    ZeroHasNoBits(buffer, b);
  }

  /** Bytes are told apart by their bits. */
  lemma SameBits(x: Byte, y: Byte)
    requires Has(x, 0x80) == Has(y, 0x80) && Has(x, 0x40) == Has(y, 0x40) && Has(x, 0x20) == Has(y, 0x20) && Has(x, 0x10) == Has(y, 0x10)
    requires Has(x, 0x8) == Has(y, 0x8) && Has(x, 0x4) == Has(y, 0x4) && Has(x, 0x2) == Has(y, 0x2) && Has(x, 0x1) == Has(y, 0x1)
    ensures x == y
  {
  }

  lemma BitInByte(msg: seq<Byte>, q: nat, k: nat)
    requires q < |msg| && k < 8
    ensures BitOf(msg, 8 * q + k) == Has(msg[q], MaskAt(k))
  {
    assert (8 * q + k) / 8 == q && (8 * q + k) % 8 == k;
  }

  /** In particular every whole byte comes back. */
  lemma WholeBytesReturn(msg: seq<Byte>, n: nat, buffer: seq<Byte>, q: nat)
    requires n <= 8 * |msg| && Zeroed(buffer) && n <= 8 * |buffer| && 8 * (q + 1) <= n
    ensures Gather(Bits(msg, n), buffer, n)[q] == msg[q]
  {
    var r := Gather(Bits(msg, n), buffer, n);
    forall k: nat | k < 8 ensures Has(r[q], MaskAt(k)) == Has(msg[q], MaskAt(k)) {
      DecodeUndoesByte2Bit(msg, n, buffer, 8 * q + k);
      BitInByte(r, q, k);
      BitInByte(msg, q, k);
    }
    EightMasks(r[q], msg[q]);
  }

  lemma EightMasks(x: Byte, y: Byte)
    requires forall k: nat :: k < 8 ==> Has(x, MaskAt(k)) == Has(y, MaskAt(k))
    ensures x == y
  {
    assert MaskAt(0) == 0x80 && MaskAt(1) == 0x40 && MaskAt(2) == 0x20 && MaskAt(3) == 0x10;
    assert MaskAt(4) == 0x8 && MaskAt(5) == 0x4 && MaskAt(6) == 0x2 && MaskAt(7) == 0x1;
    SameBits(x, y);
  }

  // ---------------------------------------------------------------- soft decisions

  /** The soft byte of a voltage relative to the nominal one. */
  function SoftOf(rel: real): (s: nat)
    ensures s <= 255
  {
    if rel > 1.0 then 255 else if rel < -1.0 then 0 else (127.5 + 127.5 * rel).Floor
  }

  function Soften(vs: seq<real>, volt: real): (r: seq<nat>)
    requires volt != 0.0
    ensures |r| == |vs|
  {
    seq(|vs|, i requires 0 <= i < |vs| => SoftOf(vs[i] / volt))
  }

  method DecodeBpskSoft(voltages: seq<real>, soft: array<nat>, n: nat, volt: real)
    requires volt != 0.0 && n <= |voltages| && n <= soft.Length
    modifies soft
    ensures soft[..n] == Soften(voltages[..n], volt)
    ensures forall i :: n <= i < soft.Length ==> soft[i] == old(soft[i])
  {
    for i := 0 to n
      invariant forall k :: 0 <= k < i ==> soft[k] == SoftOf(voltages[k] / volt)
      invariant forall k :: i <= k < soft.Length ==> soft[k] == old(soft[k])
    {
      var rel := voltages[i] / volt;
      if rel > 1.0 {
        soft[i] := 255;
      } else if rel < -1.0 {
        soft[i] := 0;
      } else {
        soft[i] := (127.5 + 127.5 * rel).Floor;
      }
    }
  }

  /** The decision of a soft byte: its bit is set from 1/255 of the nominal voltage on. */
  lemma Threshold(rel: real)
    ensures (SoftOf(rel) > 127) == (255.0 * rel >= 1.0)
  {
    var x := 127.5 + 127.5 * rel;
    assert x.Floor >= 128 <==> x >= 128.0;
  }

  lemma Ratio(v: real)
    requires v != 0.0
    ensures v / v == 1.0 && (-v) / v == -1.0
  {
  }

  /** Without noise the soft bytes are those of the plain bits, at any voltage but zero. */
  lemma NoiseFreeSoftBits(msg: seq<Byte>, n: nat, volt: real)
    requires n <= 8 * |msg| && volt != 0.0
    ensures Soften(Volts(msg, n, volt), volt) == Bits(msg, n)
  {
    Ratio(volt);
    assert SoftOf(1.0) == 255 && SoftOf(-1.0) == 0;
  }

  /** Encoding, receiving without noise and decoding gives the message back, bit for bit. */
  lemma NoiseFreeRoundTrip(msg: seq<Byte>, n: nat, volt: real, buffer: seq<Byte>, b: nat)
    requires n <= 8 * |msg| && volt != 0.0 && Zeroed(buffer) && n <= 8 * |buffer| && b < 8 * |buffer|
    ensures BitOf(Gather(Soften(Volts(msg, n, volt), volt), buffer, n), b) == (b < n && BitOf(msg, b))
  {
    NoiseFreeSoftBits(msg, n, volt);
    DecodeUndoesByte2Bit(msg, n, buffer, b);
  }

  /** With noise e added to symbol b, its bit is decoded right exactly when the noise leaves a set bit
      at least 1/255 of the voltage and a clear one less than that. */
  lemma NoisyBitIff(msg: seq<Byte>, received: seq<real>, n: nat, volt: real, buffer: seq<Byte>, b: nat, e: real)
    requires n <= 8 * |msg| && n == |received| && volt > 0.0 && Zeroed(buffer) && n <= 8 * |buffer| && b < n
    requires received[b] == Volts(msg, n, volt)[b] + e
    ensures (BitOf(Gather(Soften(received, volt), buffer, n), b) == BitOf(msg, b)) ==
            if BitOf(msg, b) then 255.0 * e >= -254.0 * volt else 255.0 * e < 256.0 * volt
  {
    GatherSets(Soften(received, volt), buffer, n, b);
    ZeroHasNoBits(buffer, b);
    Threshold(received[b] / volt);
    Scale(received[b], volt);
  }

  lemma Scale(x: real, v: real)
    requires v > 0.0
    ensures (255.0 * (x / v) >= 1.0) == (255.0 * x >= v)
  {
    var r := x / v;
    assert x == r * v;
    if 255.0 * r >= 1.0 { Times(255.0 * r, 1.0, v); } else { Times(1.0, 255.0 * r, v); StrictTimes(1.0, 255.0 * r, v); }
  }

  lemma Times(a: real, b: real, v: real)
    requires a >= b && v > 0.0
    ensures a * v >= b * v
  {
  }

  lemma StrictTimes(a: real, b: real, v: real)
    requires a > b && v > 0.0
    ensures a * v > b * v
  {
  }
}
