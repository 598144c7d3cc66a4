/** The acquisition thread (ReadThread): it keeps the synchroniser state in
    two fields and appends decoded values straight into the shared sample
    lists. Its methods are proved against Sync.Next. */
module Acquisition {
  import opened Wire
  import opened Sync
  import opened Serial
  import opened Samples

  class ReadThread {
    const port: SerialPort
    const data: SensorData
    var sync: bool
    var syncLastByte: bv8

    constructor (port: SerialPort, data: SensorData)
      ensures this.port == port && this.data == data
      ensures State() == Start
    {
      this.port := port;
      this.data := data;
      sync := false;
      syncLastByte := 0;
    }

    /** The synchroniser state the two fields hold. */
    function State(): Reader
      reads this
    {
      Reader(sync, syncLastByte)
    }

    /** process_data: appends the payload at buf[start] to the list its type
        nibble selects, field by field; an unknown type appends nothing. */
    method ProcessData(buf: seq<bv8>, start: nat)
      requires start + PayloadLength <= |buf|
      modifies data
      ensures data.temperature == old(data.temperature) + Decode(buf, start).temperatures
      ensures data.pressure == old(data.pressure) + Decode(buf, start).pressures
    {
      var kind := KindOf(buf[start]);
      if kind == TemperatureFrame {
        AppendTemperatures(buf, start);
      } else if kind == PressureFrame {
        AppendPressures(buf, start);
      }
    }

    /** The temperature branch of process_data: nine 16-bit fields. */
    method AppendTemperatures(buf: seq<bv8>, start: nat)
      requires start + PayloadLength <= |buf| && KindOf(buf[start]) == TemperatureFrame
      modifies data`temperature
      ensures data.temperature == old(data.temperature) + Decode(buf, start).temperatures
    {
      ghost var decoded := Decode(buf, start).temperatures;
      for idx := 0 to TemperatureCount
        invariant data.temperature == old(data.temperature) + decoded[..idx]
      {
        var value := Be16(buf[start + 1 + idx * 2], buf[start + 1 + idx * 2 + 1]);
        TemperatureField(buf, start, idx);
        data.temperature := data.temperature + [value];
        assert decoded[..idx + 1] == decoded[..idx] + [decoded[idx]];
      }
      assert decoded[..TemperatureCount] == decoded;
    }

    /** The pressure branch of process_data: six 24-bit fields. */
    method AppendPressures(buf: seq<bv8>, start: nat)
      requires start + PayloadLength <= |buf| && KindOf(buf[start]) == PressureFrame
      modifies data`pressure
      ensures data.pressure == old(data.pressure) + Decode(buf, start).pressures
    {
      ghost var decoded := Decode(buf, start).pressures;
      for idx := 0 to PressureCount
        invariant data.pressure == old(data.pressure) + decoded[..idx]
      {
        var value := Be24(buf[start + 1 + idx * 3], buf[start + 1 + idx * 3 + 1], buf[start + 1 + idx * 3 + 2]);
        PressureField(buf, start, idx);
        data.pressure := data.pressure + [value];
        assert decoded[..idx + 1] == decoded[..idx] + [decoded[idx]];
      }
      assert decoded[..PressureCount] == decoded;
    }

    /** One pass of the `while True` loop of run. */
    method RunOnce()
      requires Enough(State(), port.unread)
      modifies this, port, data
      ensures var s := Next(old(State()), old(port.unread));
        && State() == s.reader
        && port.unread == old(port.unread)[s.consumed..]
        && data.temperature == old(data.temperature) + s.readings.temperatures
        && data.pressure == old(data.pressure) + s.readings.pressures
      ensures port.written == old(port.written)
    {
      if !sync {
        var buf := port.Read(1);
        if syncLastByte == Marker0 && buf[0] == Marker1 {
          sync := true;
          var payload := port.Read(PayloadLength);
          assert payload == old(port.unread)[1..1 + PayloadLength];
          ProcessData(payload, 0);
        } else {
          syncLastByte := buf[0];
        }
      } else {
        var buf := port.Read(FrameLength);
        if buf[0] != Marker0 || buf[1] != Marker1 {
          sync := false;
          syncLastByte := 0;
        } else {
          ProcessData(buf, 2);
        }
      }
    }
  }
}
