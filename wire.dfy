/** The sensor's wire format: a two-byte marker, then a payload made of a
    type byte, whose high nibble names the reading kind, and packed
    big-endian fields. */
module Wire {

  /** First and second byte of the frame marker. */
  const Marker0: bv8 := 0x85
  const Marker1: bv8 := 0x75

  /** Bytes after the marker: the type byte and 18 field bytes. */
  const PayloadLength: nat := 19
  /** Bytes of a whole frame: the marker and the payload. */
  const FrameLength: nat := 21

  const TemperatureCount: nat := 9
  const PressureCount: nat := 6

  datatype FrameKind = TemperatureFrame | PressureFrame | UnknownFrame

  /** The kind a type byte announces, read from its high nibble with a mask. */
  function KindOf(b: bv8): (k: FrameKind)
    ensures k == TemperatureFrame <==> b >> 4 == 1
    ensures k == PressureFrame <==> b >> 4 == 2
  {
    if b & 0xF0 == 0x10 then TemperatureFrame
    else if b & 0xF0 == 0x20 then PressureFrame
    else UnknownFrame
  }

  /** The high nibble of the type byte, read as a number, names the kind. */
  lemma KindOfNibble(b: bv8)
    ensures KindOf(b) == TemperatureFrame <==> b as int / 16 == 1
    ensures KindOf(b) == PressureFrame <==> b as int / 16 == 2
  {
    assert (b >> 4) as int == b as int / 16;
  }

  /** A two-byte big-endian field, assembled by shift and or. */
  function Be16(hi: bv8, lo: bv8): (r: int)
    ensures r == hi as int * 0x100 + lo as int
    ensures 0 <= r < 0x1_0000
  {
    (((hi as bv32) << 8) | (lo as bv32)) as int
  }

  /** A three-byte big-endian field, assembled by shift and or. */
  function Be24(b0: bv8, b1: bv8, b2: bv8): (r: int)
    ensures r == b0 as int * 0x1_0000 + b1 as int * 0x100 + b2 as int
    ensures 0 <= r < 0x100_0000
  {
    (((b0 as bv32) << 16) | ((b1 as bv32) << 8) | (b2 as bv32)) as int
  }

  /** What one payload yields, per channel, in field order. */
  datatype Readings = Readings(temperatures: seq<int>, pressures: seq<int>)

  const NoReadings := Readings([], [])

  function Concat(a: Readings, b: Readings): Readings {
    Readings(a.temperatures + b.temperatures, a.pressures + b.pressures)
  }

  /** The nine big-endian 16-bit fields after the type byte at buf[start]. */
  function Temperatures(buf: seq<bv8>, start: nat): (vs: seq<int>)
    requires start + PayloadLength <= |buf|
    ensures |vs| == TemperatureCount
    ensures forall k :: 0 <= k < TemperatureCount ==>
      && vs[k] == buf[start + 1 + 2 * k] as int * 0x100 + buf[start + 2 + 2 * k] as int
      && 0 <= vs[k] < 0x1_0000
  {
    seq(TemperatureCount, k requires 0 <= k < TemperatureCount =>
          Be16(buf[start + 1 + k * 2], buf[start + 1 + k * 2 + 1]))
  }

  /** The six big-endian 24-bit fields after the type byte at buf[start]. */
  function Pressures(buf: seq<bv8>, start: nat): (vs: seq<int>)
    requires start + PayloadLength <= |buf|
    ensures |vs| == PressureCount
    ensures forall k :: 0 <= k < PressureCount ==>
      && vs[k] == buf[start + 1 + 3 * k] as int * 0x1_0000
                  + buf[start + 2 + 3 * k] as int * 0x100 + buf[start + 3 + 3 * k] as int
      && 0 <= vs[k] < 0x100_0000
  {
    seq(PressureCount, k requires 0 <= k < PressureCount =>
          Be24(buf[start + 1 + k * 3], buf[start + 1 + k * 3 + 1], buf[start + 1 + k * 3 + 2]))
  }

  /** Decodes the payload whose type byte is buf[start]; an unknown type
      yields nothing. */
  function Decode(buf: seq<bv8>, start: nat): (r: Readings)
    requires start + PayloadLength <= |buf|
    ensures KindOf(buf[start]) == TemperatureFrame ==>
      && r.pressures == []
      && |r.temperatures| == TemperatureCount
      && forall k :: 0 <= k < TemperatureCount ==>
           && r.temperatures[k] == buf[start + 1 + 2 * k] as int * 0x100 + buf[start + 2 + 2 * k] as int
           && 0 <= r.temperatures[k] < 0x1_0000
    ensures KindOf(buf[start]) == PressureFrame ==>
      && r.temperatures == []
      && |r.pressures| == PressureCount
      && forall k :: 0 <= k < PressureCount ==>
           && r.pressures[k] == buf[start + 1 + 3 * k] as int * 0x1_0000
                                + buf[start + 2 + 3 * k] as int * 0x100 + buf[start + 3 + 3 * k] as int
           && 0 <= r.pressures[k] < 0x100_0000
    ensures KindOf(buf[start]) == UnknownFrame ==> r == NoReadings
  {
    match KindOf(buf[start])
    case TemperatureFrame => Readings(Temperatures(buf, start), [])
    case PressureFrame => Readings([], Pressures(buf, start))
    case UnknownFrame => NoReadings
  }

  /** Field k of a temperature payload is the shift-and-or of its two bytes. */
  lemma TemperatureField(buf: seq<bv8>, start: nat, k: nat)
    requires start + PayloadLength <= |buf| && KindOf(buf[start]) == TemperatureFrame
    requires k < TemperatureCount
    ensures Decode(buf, start).temperatures[k] == Be16(buf[start + 1 + k * 2], buf[start + 1 + k * 2 + 1])
  {
  }

  /** Field k of a pressure payload is the shift-and-or of its three bytes. */
  lemma PressureField(buf: seq<bv8>, start: nat, k: nat)
    requires start + PayloadLength <= |buf| && KindOf(buf[start]) == PressureFrame
    requires k < PressureCount
    ensures Decode(buf, start).pressures[k]
         == Be24(buf[start + 1 + k * 3], buf[start + 1 + k * 3 + 1], buf[start + 1 + k * 3 + 2])
  {
  }

  /** Decoding depends only on the 19 payload bytes, wherever they sit. */
  lemma DecodeShift(buf: seq<bv8>, start: nat)
    requires start + PayloadLength <= |buf|
    ensures Decode(buf[start..start + PayloadLength], 0) == Decode(buf, start)
  {
    var p := buf[start..start + PayloadLength];
    assert p[0] == buf[start];
    assert forall i :: 0 <= i < PayloadLength ==> p[i] == buf[start + i];
  }

  // The sending side, as a reference for the decoder: the device packs each
  // value big-endian behind a type byte.

  predicate InRange(vs: seq<int>, bound: int) {
    forall k :: 0 <= k < |vs| ==> 0 <= vs[k] < bound
  }

  /** The byte holding n. */
  function ByteOf(n: nat): (b: bv8)
    requires n < 0x100
    ensures b as int == n
  {
    ByteValue(n);
    FromNat(n)
  }

  /** The byte holding n, counted up one at a time. */
  function FromNat(n: nat): bv8
    requires n < 0x100
  {
    if n == 0 then 0 else FromNat(n - 1) + 1
  }

  lemma {:induction false} ByteValue(n: nat)
    requires n < 0x100
    ensures FromNat(n) as int == n
  {
    if n > 0 {
      ByteValue(n - 1);
      var b := FromNat(n - 1);
      assert b as int < 0xFF;
      assert (b + 1) as int == b as int + 1;
    }
  }

  /** Byte j (0 = most significant) of a 16-bit value. */
  function Byte16(v: int, j: nat): (b: bv8)
    requires 0 <= v < 0x1_0000 && j < 2
  {
    if j == 0 then ByteOf(v / 0x100) else ByteOf(v % 0x100)
  }

  /** Byte j (0 = most significant) of a 24-bit value. */
  function Byte24(v: int, j: nat): (b: bv8)
    requires 0 <= v < 0x100_0000 && j < 3
  {
    if j == 0 then ByteOf(v / 0x1_0000)
    else if j == 1 then ByteOf(v / 0x100 % 0x100)
    else ByteOf(v % 0x100)
  }

  /** A temperature payload carrying nine 16-bit values. */
  function TemperaturePayload(vs: seq<int>): (p: seq<bv8>)
    requires |vs| == TemperatureCount && InRange(vs, 0x1_0000)
    ensures |p| == PayloadLength
  {
    [0x10] + seq(2 * TemperatureCount, i requires 0 <= i < 2 * TemperatureCount =>
                   Byte16(vs[i / 2], i % 2))
  }

  /** A pressure payload carrying six 24-bit values. */
  function PressurePayload(vs: seq<int>): (p: seq<bv8>)
    requires |vs| == PressureCount && InRange(vs, 0x100_0000)
    ensures |p| == PayloadLength
  {
    [0x20] + seq(3 * PressureCount, i requires 0 <= i < 3 * PressureCount =>
                   Byte24(vs[i / 3], i % 3))
  }

  /** A whole frame: the marker followed by a payload. */
  function Frame(payload: seq<bv8>): (f: seq<bv8>)
    requires |payload| == PayloadLength
    ensures |f| == FrameLength && f[0] == Marker0 && f[1] == Marker1 && f[2..] == payload
  {
    [Marker0, Marker1] + payload
  }

  /** Byte j of temperature field k is byte j of value k. */
  lemma TemperatureByteAt(vs: seq<int>, k: nat, j: nat)
    requires |vs| == TemperatureCount && InRange(vs, 0x1_0000) && k < TemperatureCount && j < 2
    ensures TemperaturePayload(vs)[1 + 2 * k + j] == Byte16(vs[k], j)
  {
    assert (2 * k + j) / 2 == k && (2 * k + j) % 2 == j;
  }

  /** Byte j of pressure field k is byte j of value k. */
  lemma PressureByteAt(vs: seq<int>, k: nat, j: nat)
    requires |vs| == PressureCount && InRange(vs, 0x100_0000) && k < PressureCount && j < 3
    ensures PressurePayload(vs)[1 + 3 * k + j] == Byte24(vs[k], j)
  {
    assert (3 * k + j) / 3 == k && (3 * k + j) % 3 == j;
  }

  /** The two bytes the payload carries for field k give back the value. */
  lemma TemperatureBytes(vs: seq<int>, k: nat)
    requires |vs| == TemperatureCount && InRange(vs, 0x1_0000) && k < TemperatureCount
    ensures var p := TemperaturePayload(vs);
      p[1 + 2 * k] as int == vs[k] / 0x100 && p[2 + 2 * k] as int == vs[k] % 0x100
  {
    TemperatureByteAt(vs, k, 0);
    TemperatureByteAt(vs, k, 1);
  }

  /** The three bytes the payload carries for field k give back the value. */
  lemma PressureBytes(vs: seq<int>, k: nat)
    requires |vs| == PressureCount && InRange(vs, 0x100_0000) && k < PressureCount
    ensures var p := PressurePayload(vs);
      && p[1 + 3 * k] as int == vs[k] / 0x1_0000
      && p[2 + 3 * k] as int == vs[k] / 0x100 % 0x100
      && p[3 + 3 * k] as int == vs[k] % 0x100
  {
    PressureByteAt(vs, k, 0);
    PressureByteAt(vs, k, 1);
    PressureByteAt(vs, k, 2);
  }

  /** A non-negative value is its three low bytes, weighted big-endian. */
  lemma Split24(v: int)
    requires 0 <= v < 0x100_0000
    ensures v / 0x1_0000 * 0x1_0000 + v / 0x100 % 0x100 * 0x100 + v % 0x100 == v
  {
    var q := v / 0x100;
    assert v == q * 0x100 + v % 0x100;
    assert q == q / 0x100 * 0x100 + q % 0x100;
    assert q / 0x100 == v / 0x1_0000;
  }

  /** Decoding a temperature payload gives back the nine values packed in it. */
  lemma {:induction false} TemperatureRoundTrip(vs: seq<int>)
    requires |vs| == TemperatureCount && InRange(vs, 0x1_0000)
    ensures Decode(TemperaturePayload(vs), 0) == Readings(vs, [])
  {
    var p := TemperaturePayload(vs);
    var r := Decode(p, 0);
    assert KindOf(p[0]) == TemperatureFrame;
    forall k | 0 <= k < TemperatureCount
      ensures r.temperatures[k] == vs[k]
    {
      TemperatureBytes(vs, k);
    }
  }

  /** Decoding a pressure payload gives back the six values packed in it. */
  lemma {:induction false} PressureRoundTrip(vs: seq<int>)
    requires |vs| == PressureCount && InRange(vs, 0x100_0000)
    ensures Decode(PressurePayload(vs), 0) == Readings([], vs)
  {
    var p := PressurePayload(vs);
    var r := Decode(p, 0);
    assert KindOf(p[0]) == PressureFrame;
    forall k | 0 <= k < PressureCount
      ensures r.pressures[k] == vs[k]
    {
      PressureBytes(vs, k);
      Split24(vs[k]);
    }
  }
}
