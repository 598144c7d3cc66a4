/** The single-slot outgoing command (the global cmd_write) and the write
    thread that sends it. */
module Mailbox {
  import opened Optional
  import opened Serial

  class CommandSlot {
    var pending: Option<string>

    constructor ()
      ensures pending == None
    {
      pending := None;
    }
  }

  /** WriteThread: one pass of its `while True` loop sends the pending
      command, if any, and empties the slot. */
  class WriteThread {
    const port: SerialPort
    const slot: CommandSlot

    constructor (port: SerialPort, slot: CommandSlot)
      ensures this.port == port && this.slot == slot
    {
      this.port := port;
      this.slot := slot;
    }

    method RunOnce()
      modifies port, slot
      ensures var out := Pass(Outbox(old(slot.pending), old(port.written)));
        slot.pending == out.pending && port.written == out.written
      ensures port.unread == old(port.unread)
    {
      if slot.pending != None {
        port.Write(slot.pending.value);
        slot.pending := None;
      }
    }
  }

  // The slot and the device's command log seen over time.

  datatype Outbox = Outbox(pending: Option<string>, written: seq<string>)

  /** A pass of the write thread. */
  function Pass(o: Outbox): (r: Outbox)
    ensures r.pending == None
    ensures r.written + AsSeq(r.pending) == o.written + AsSeq(o.pending)
  {
    match o.pending
    case Some(cmd) => Outbox(None, o.written + [cmd])
    case None => o
  }

  /** A store by OnClickSetPara, once its wait for the slot is over. */
  function Post(o: Outbox, cmd: string): (r: Outbox)
    ensures r.pending == Some(cmd)
    ensures o.pending == None ==> r.written + AsSeq(r.pending) == o.written + AsSeq(o.pending) + [cmd]
  {
    o.(pending := Some(cmd))
  }

  datatype Event = Set(cmd: string) | WriterPass

  /** The slot and the log after the events, in order; what was written
      stays written. */
  function Replay(o: Outbox, events: seq<Event>): (r: Outbox)
    ensures |o.written| <= |r.written| && r.written[..|o.written|] == o.written
    decreases |events|
  {
    if events == [] then o
    else if events[0].Set? then Replay(Post(o, events[0].cmd), events[1..])
    else Replay(Pass(o), events[1..])
  }

  /** Every Set finds the slot empty: the source spins until it is. */
  predicate SetsWait(o: Outbox, events: seq<Event>)
    decreases |events|
  {
    if events == [] then true
    else if events[0].Set? then o.pending == None && SetsWait(Post(o, events[0].cmd), events[1..])
    else SetsWait(Pass(o), events[1..])
  }

  function Posted(events: seq<Event>): seq<string>
    decreases |events|
  {
    if events == [] then []
    else if events[0].Set? then [events[0].cmd] + Posted(events[1..])
    else Posted(events[1..])
  }

  function AsSeq(p: Option<string>): seq<string> {
    if p.Some? then [p.value] else []
  }

  /** When every store waits for the slot, each command is written to the
      device exactly once, in the order stored, or is still pending. */
  lemma {:induction false} EachCommandOnce(o: Outbox, events: seq<Event>)
    requires SetsWait(o, events)
    ensures Replay(o, events).written + AsSeq(Replay(o, events).pending)
         == o.written + AsSeq(o.pending) + Posted(events)
    decreases |events|
  {
    if events != [] {
      var rest := events[1..];
      if events[0].Set? {
        var cmd := events[0].cmd;
        EachCommandOnce(Post(o, cmd), rest);
        assert o.written + AsSeq(Post(o, cmd).pending) + Posted(rest)
            == o.written + AsSeq(o.pending) + Posted(events);
      } else {
        EachCommandOnce(Pass(o), rest);
        assert Pass(o).written + AsSeq(Pass(o).pending) == o.written + AsSeq(o.pending);
      }
    } else {
      assert Posted(events) == [];
    }
  }
}
