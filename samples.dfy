/** The two sample lists the read thread fills and the redraw timer drains
    (temperature_data and pressure_data, guarded by sensor_data_lock). Each
    method below runs with the lock held, so it is one atomic step here. */
module Samples {

  class SensorData {
    var temperature: seq<int>
    var pressure: seq<int>

    constructor ()
      ensures temperature == [] && pressure == []
    {
      temperature := [];
      pressure := [];
    }

    /** DataGen.next_temperature: takes the whole list and leaves it empty. */
    method NextTemperature() returns (buf: seq<int>)
      modifies this`temperature
      ensures buf == old(temperature) && temperature == []
    {
      buf := temperature;
      temperature := [];
    }

    /** DataGen.next_pressure: takes the whole list and leaves it empty. */
    method NextPressure() returns (buf: seq<int>)
      modifies this`pressure
      ensures buf == old(pressure) && pressure == []
    {
      buf := pressure;
      pressure := [];
    }
  }

  // One list seen over time: the read thread appends whole decoded batches,
  // the redraw timer takes everything. These are the two updates the methods
  // above and ReadThread.ProcessData make to one list.

  datatype Event = Append(batch: seq<int>) | Drain

  /** The list left at the end, and what each drain returned, in order. */
  datatype History = History(left: seq<int>, drains: seq<seq<int>>)

  /** Each drain hands out exactly one list; with no drain, the list holds
      what it held followed by every batch appended. */
  function Replay(buffer: seq<int>, events: seq<Event>): (h: History)
    ensures |h.drains| == DrainCount(events)
    ensures DrainCount(events) == 0 ==> h.left == buffer + Appended(events)
    decreases |events|
  {
    if events == [] then History(buffer, [])
    else if events[0].Append? then Replay(buffer + events[0].batch, events[1..])
    else
      var h := Replay([], events[1..]);
      History(h.left, [buffer] + h.drains)
  }

  function DrainCount(events: seq<Event>): nat
    decreases |events|
  {
    if events == [] then 0 else (if events[0].Drain? then 1 else 0) + DrainCount(events[1..])
  }

  function Appended(events: seq<Event>): seq<int>
    decreases |events|
  {
    if events == [] then []
    else if events[0].Append? then events[0].batch + Appended(events[1..])
    else Appended(events[1..])
  }

  function Flatten(xss: seq<seq<int>>): seq<int>
    decreases |xss|
  {
    if xss == [] then [] else xss[0] + Flatten(xss[1..])
  }

  /** Every sample appended is handed out by exactly one drain or is still
      in the list, in arrival order: nothing is lost or repeated. */
  lemma {:induction false} NothingLostOrRepeated(buffer: seq<int>, events: seq<Event>)
    ensures Flatten(Replay(buffer, events).drains) + Replay(buffer, events).left == buffer + Appended(events)
    decreases |events|
  {
    if events == [] {
      assert Flatten([]) + buffer == buffer;
    } else if events[0].Append? {
      var batch := events[0].batch;
      NothingLostOrRepeated(buffer + batch, events[1..]);
      assert buffer + batch + Appended(events[1..]) == buffer + (batch + Appended(events[1..]));
    } else {
      var rest := events[1..];
      var h := Replay([], rest);
      NothingLostOrRepeated([], rest);
      FlattenCons(buffer, h.drains);
      calc {
        Flatten(Replay(buffer, events).drains) + Replay(buffer, events).left;
        Flatten([buffer] + h.drains) + h.left;
        buffer + Flatten(h.drains) + h.left;
        buffer + (Flatten(h.drains) + h.left);
        { assert [] + Appended(rest) == Appended(rest); }
        buffer + Appended(events);
      }
    }
  }

  /** Flattening a list that starts with xs starts with xs. */
  lemma FlattenCons(xs: seq<int>, xss: seq<seq<int>>)
    ensures Flatten([xs] + xss) == xs + Flatten(xss)
  {
    assert ([xs] + xss)[1..] == xss;
  }

  /** A drain straight after a drain returns nothing. */
  lemma {:induction false} SecondDrainEmpty(buffer: seq<int>, events: seq<Event>)
    ensures var drains := Replay(buffer, events + [Drain, Drain]).drains;
      |drains| >= 2 && drains[|drains| - 1] == []
    decreases |events|
  {
    if events == [] {
      assert [Drain, Drain][1..] == [Drain] && [Drain][1..] == [];
      assert Replay([], [Drain]) == History([], [[]]);
      assert Replay(buffer, [Drain, Drain]) == History([], [buffer, []]);
    } else {
      assert (events + [Drain, Drain])[1..] == events[1..] + [Drain, Drain];
      if events[0].Append? {
        SecondDrainEmpty(buffer + events[0].batch, events[1..]);
      } else {
        SecondDrainEmpty([], events[1..]);
      }
    }
  }
}
