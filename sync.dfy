/** The frame synchroniser of the acquisition loop as a state machine on
    values: the reader state is the pair (sync, sync_last_byte) that
    ReadThread keeps in its fields, and one step is one pass of the
    `while True` body of ReadThread.run. The byte source is the sequence of
    bytes not yet read; a blocking read of n bytes takes its first n. */
module Sync {
  import opened Optional
  import opened Wire

  datatype Reader = Reader(sync: bool, lastByte: bv8)

  /** The state ReadThread's constructor sets up: not synchronised, last byte 0. */
  const Start := Reader(false, 0)

  /** The previously read byte and the current one complete the marker. */
  predicate CompletesMarker(last: bv8, b: bv8) {
    last == Marker0 && b == Marker1
  }

  /** The input holds every byte the next step reads (reads block until
      they are delivered in full). */
  predicate Enough(r: Reader, input: seq<bv8>) {
    if r.sync then FrameLength <= |input|
    else 1 <= |input| && (CompletesMarker(r.lastByte, input[0]) ==> 1 + PayloadLength <= |input|)
  }

  /** The outcome of one step: the new state, how many bytes were read and
      what was appended to the two sample buffers. */
  datatype Step = Step(reader: Reader, consumed: nat, readings: Readings)

  /** One pass of the acquisition loop. */
  function Next(r: Reader, input: seq<bv8>): (s: Step)
    requires Enough(r, input)
    ensures 1 <= s.consumed <= |input|
    ensures !s.reader.sync ==> s.readings == NoReadings
  {
    if !r.sync then
      if CompletesMarker(r.lastByte, input[0]) then
        Step(r.(sync := true), 1 + PayloadLength, Decode(input[1..1 + PayloadLength], 0))
      else
        Step(r.(lastByte := input[0]), 1, NoReadings)
    else
      var buf := input[..FrameLength];
      if buf[0] != Marker0 || buf[1] != Marker1 then
        Step(Start, FrameLength, NoReadings)
      else
        Step(r, FrameLength, Decode(buf, 2))
  }

  /** Unsynchronised: the step synchronises exactly when the marker
      completes, and then decodes the 19 bytes after it; otherwise it reads
      one byte, remembers it and yields nothing. */
  lemma UnsyncedStep(r: Reader, input: seq<bv8>)
    requires !r.sync && Enough(r, input)
    ensures var s := Next(r, input);
      && (s.reader.sync <==> CompletesMarker(r.lastByte, input[0]))
      && (s.reader.sync ==> s.consumed == 1 + PayloadLength && s.readings == Decode(input, 1))
      && (!s.reader.sync ==> s.reader.lastByte == input[0] && s.consumed == 1 && s.readings == NoReadings)
  {
    if CompletesMarker(r.lastByte, input[0]) {
      DecodeShift(input, 1);
    }
  }

  /** Synchronised on a frame whose first two bytes are not the marker: the
      step yields nothing and drops back to the start state, so the very
      next byte, whatever it is, cannot complete a marker. */
  lemma LostSync(r: Reader, input: seq<bv8>, b: bv8)
    requires r.sync && Enough(r, input)
    requires input[0] != Marker0 || input[1] != Marker1
    ensures var s := Next(r, input);
      && s.reader == Start && s.consumed == FrameLength && s.readings == NoReadings
      && !Next(s.reader, [b]).reader.sync
  {
  }

  /** Synchronised on a frame that starts with the marker: the payload at
      offset 2 is decoded and the state is kept, whatever the type byte;
      an unknown type yields nothing and does not break synchronisation. */
  lemma InSync(r: Reader, input: seq<bv8>)
    requires r.sync && Enough(r, input)
    requires input[0] == Marker0 && input[1] == Marker1
    ensures var s := Next(r, input);
      && s.reader == r && s.consumed == FrameLength && s.readings == Decode(input, 2)
      && (KindOf(input[2]) == UnknownFrame ==> s.readings == NoReadings)
  {
    DecodeShift(input[..FrameLength], 2);
    DecodeShift(input, 2);
  }

  /** A synchronised reader fed a well-marked frame decodes its payload
      and stays synchronised. */
  lemma FramedPayload(r: Reader, p: seq<bv8>, rest: seq<bv8>)
    requires r.sync && |p| == PayloadLength
    ensures Next(r, Frame(p) + rest) == Step(r, FrameLength, Decode(p, 0))
  {
    var input := Frame(p) + rest;
    assert input[..FrameLength] == Frame(p);
    DecodeShift(Frame(p), 2);
  }

  /** A synchronised reader fed a temperature frame the device packed gets
      back exactly the nine values packed in it. */
  lemma TemperatureFrameRoundTrip(r: Reader, vs: seq<int>, rest: seq<bv8>)
    requires r.sync && |vs| == TemperatureCount && InRange(vs, 0x1_0000)
    ensures Next(r, Frame(TemperaturePayload(vs)) + rest) == Step(r, FrameLength, Readings(vs, []))
  {
    FramedPayload(r, TemperaturePayload(vs), rest);
    TemperatureRoundTrip(vs);
  }

  /** A synchronised reader fed a pressure frame the device packed gets back
      exactly the six values packed in it. */
  lemma PressureFrameRoundTrip(r: Reader, vs: seq<int>, rest: seq<bv8>)
    requires r.sync && |vs| == PressureCount && InRange(vs, 0x100_0000)
    ensures Next(r, Frame(PressurePayload(vs)) + rest) == Step(r, FrameLength, Readings([], vs))
  {
    FramedPayload(r, PressurePayload(vs), rest);
    PressureRoundTrip(vs);
  }

  // Running the loop for several passes.

  /** The state, the unread input and everything appended after some passes. */
  datatype Trace = Trace(reader: Reader, rest: seq<bv8>, readings: Readings)

  /** `steps` passes of the loop, or None if the input runs out first. */
  function Run(r: Reader, input: seq<bv8>, steps: nat): (t: Option<Trace>)
    ensures t.Some? ==> |t.value.rest| + steps <= |input|
                        && t.value.rest == input[|input| - |t.value.rest|..]
    ensures t.None? ==> steps > 0
    decreases steps
  {
    if steps == 0 then Some(Trace(r, input, NoReadings))
    else if !Enough(r, input) then None
    else
      var s := Next(r, input);
      match Run(s.reader, input[s.consumed..], steps - 1)
      case None => None
      case Some(t) => Some(t.(readings := Concat(s.readings, t.readings)))
  }

  /** Position i of the input completes a marker, the byte before position 0
      being the remembered one. */
  predicate MarkerEndsAt(last: bv8, input: seq<bv8>, i: nat) {
    i < |input| && CompletesMarker(if i == 0 then last else input[i - 1], input[i])
  }

  /** A pass that does not complete the marker reads one byte and yields
      nothing, so n + 1 passes are that pass followed by n passes on the
      rest. */
  lemma OneByte(last: bv8, input: seq<bv8>, n: nat)
    requires 1 <= |input| && !CompletesMarker(last, input[0])
    ensures Run(Reader(false, last), input, n + 1) == Run(Reader(false, input[0]), input[1..], n)
  {
    var s := Next(Reader(false, last), input);
    assert s == Step(Reader(false, input[0]), 1, NoReadings);
    match Run(Reader(false, input[0]), input[1..], n)
    case None =>
    case Some(t) =>
      assert Concat(NoReadings, t.readings) == t.readings by {
        assert [] + t.readings.temperatures == t.readings.temperatures;
        assert [] + t.readings.pressures == t.readings.pressures;
      }
  }

  /** Before the first marker, every pass reads one byte, stays
      unsynchronised and yields nothing. */
  lemma {:induction false} Hunting(last: bv8, input: seq<bv8>, m: nat)
    requires m <= |input|
    requires forall j :: 0 <= j < m ==> !MarkerEndsAt(last, input, j)
    ensures Run(Reader(false, last), input, m)
         == Some(Trace(Reader(false, if m == 0 then last else input[m - 1]), input[m..], NoReadings))
    decreases m
  {
    if m > 0 {
      var tail := input[1..];
      var last' := if m == 1 then input[0] else tail[m - 2];
      assert !MarkerEndsAt(last, input, 0);
      NoMarkerInTail(last, input, m);
      TailPosition(input, m);
      calc {
        Run(Reader(false, last), input, m);
        { OneByte(last, input, m - 1); }
        Run(Reader(false, input[0]), tail, m - 1);
        { Hunting(input[0], tail, m - 1); }
        Some(Trace(Reader(false, last'), tail[m - 1..], NoReadings));
      }
    }
  }

  /** No marker ends in the first m positions, so none ends in the first
      m - 1 positions of the input after its first byte. */
  lemma NoMarkerInTail(last: bv8, input: seq<bv8>, m: nat)
    requires 0 < m <= |input|
    requires forall j :: 0 <= j < m ==> !MarkerEndsAt(last, input, j)
    ensures forall j :: 0 <= j < m - 1 ==> !MarkerEndsAt(input[0], input[1..], j)
  {
    forall j | 0 <= j < m - 1
      ensures !MarkerEndsAt(input[0], input[1..], j)
    {
      assert !MarkerEndsAt(last, input, j + 1);
    }
  }

  /** After dropping the first byte, the byte before position m - 1 and the
      bytes from m - 1 on are those of the whole input one position further. */
  lemma TailPosition(input: seq<bv8>, m: nat)
    requires 0 < m <= |input|
    ensures input[1..][m - 1..] == input[m..]
    ensures m > 1 ==> input[1..][m - 2] == input[m - 1]
  {
  }

  /** From any unsynchronised state, the loop synchronises on the pass that
      reads the first byte completing a marker, and that pass yields the
      decoded payload that follows the marker, nothing else having been
      yielded before it. */
  lemma {:induction false} SyncAtFirstMarker(last: bv8, input: seq<bv8>, i: nat)
    requires MarkerEndsAt(last, input, i)
    requires forall j :: 0 <= j < i ==> !MarkerEndsAt(last, input, j)
    requires i + 1 + PayloadLength <= |input|
    ensures Run(Reader(false, last), input, i + 1)
         == Some(Trace(Reader(true, Marker0), input[i + 1 + PayloadLength..],
                       Decode(input[i + 1..i + 1 + PayloadLength], 0)))
    decreases i
  {
    if i == 0 {
      MarkerFirstPass(last, input);
    } else {
      MarkerInTail(last, input, i);
      NoMarkerInTail(last, input, i);
      SyncAtFirstMarker(input[0], input[1..], i - 1);
      SyncAfterOneByte(last, input, i);
    }
  }

  /** The inductive step of SyncAtFirstMarker: a pass that reads a byte not
      completing the marker, followed by the passes that synchronise on the
      rest of the input. */
  lemma SyncAfterOneByte(last: bv8, input: seq<bv8>, i: nat)
    requires 0 < i && i + 1 + PayloadLength <= |input| && !MarkerEndsAt(last, input, 0)
    requires Run(Reader(false, input[0]), input[1..], i)
          == Some(Trace(Reader(true, Marker0), input[1..][i + PayloadLength..],
                        Decode(input[1..][i..i + PayloadLength], 0)))
    ensures Run(Reader(false, last), input, i + 1)
         == Some(Trace(Reader(true, Marker0), input[i + 1 + PayloadLength..],
                       Decode(input[i + 1..i + 1 + PayloadLength], 0)))
  {
    OneByte(last, input, i);
    DropOne(input, i, i + PayloadLength);
  }

  /** A pass whose byte completes the marker synchronises and yields the
      decoded payload that follows. */
  lemma MarkerFirstPass(last: bv8, input: seq<bv8>)
    requires 1 + PayloadLength <= |input| && CompletesMarker(last, input[0])
    ensures Run(Reader(false, last), input, 1)
         == Some(Trace(Reader(true, Marker0), input[1 + PayloadLength..],
                       Decode(input[1..1 + PayloadLength], 0)))
  {
    var s := Next(Reader(false, last), input);
    assert s == Step(Reader(true, last), 1 + PayloadLength, Decode(input[1..1 + PayloadLength], 0));
    var d := s.readings;
    assert Concat(d, NoReadings) == d by {
      assert d.temperatures + [] == d.temperatures;
      assert d.pressures + [] == d.pressures;
    }
  }

  /** A marker ending at position i > 0 ends at position i - 1 of the input
      after its first byte. */
  lemma MarkerInTail(last: bv8, input: seq<bv8>, i: nat)
    requires 0 < i && MarkerEndsAt(last, input, i)
    ensures MarkerEndsAt(input[0], input[1..], i - 1)
  {
    if i > 1 {
      assert input[1..][i - 2] == input[i - 1];
    }
  }

  /** Slicing the input after its first byte is slicing the input one
      position further on. */
  lemma DropOne(input: seq<bv8>, lo: nat, hi: nat)
    requires 1 <= lo <= hi < |input|
    ensures input[1..][lo..hi] == input[lo + 1..hi + 1]
    ensures input[1..][hi..] == input[hi + 1..]
  {
    var tail := input[1..];
    assert forall k :: lo <= k < hi ==> tail[k] == input[k + 1];
    assert forall k :: hi <= k < |tail| ==> tail[k] == input[k + 1];
  }

  /** The first marker ending at or before position j. */
  ghost function FirstMarker(last: bv8, input: seq<bv8>, j: nat): (i: nat)
    requires MarkerEndsAt(last, input, j)
    ensures i <= j && MarkerEndsAt(last, input, i)
    ensures forall k :: 0 <= k < i ==> !MarkerEndsAt(last, input, k)
    decreases j
  {
    if exists k :: 0 <= k < j && MarkerEndsAt(last, input, k) then
      var k :| 0 <= k < j && MarkerEndsAt(last, input, k);
      FirstMarker(last, input, k)
    else j
  }

  /** Whatever garbage came before, a marker ending at position j (with its
      payload available) gets the loop synchronised within j + 1 passes,
      having read no more than j + 20 bytes. */
  lemma Resynchronises(last: bv8, input: seq<bv8>, j: nat)
    requires MarkerEndsAt(last, input, j)
    requires j + 1 + PayloadLength <= |input|
    ensures exists n :: (1 <= n <= j + 1 && Run(Reader(false, last), input, n).Some?
                         && Run(Reader(false, last), input, n).value.reader.sync
                         && |input| - |Run(Reader(false, last), input, n).value.rest| <= j + 1 + PayloadLength)
  {
    var i := FirstMarker(last, input, j);
    SyncAtFirstMarker(last, input, i);
    var t := Run(Reader(false, last), input, i + 1);
    assert t.Some? && t.value.reader.sync && |t.value.rest| == |input| - (i + 1 + PayloadLength);
  }
}
