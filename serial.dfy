/** The serial device shared by the read and write threads (gSerialDev).
    Opening it and the electrical link are outside the model: it is the
    bytes the device has sent that are not read yet, and the commands
    written to it so far. */
module Serial {

  class SerialPort {
    var unread: seq<bv8>
    var written: seq<string>

    constructor (incoming: seq<bv8>)
      ensures unread == incoming && written == []
    {
      unread := incoming;
      written := [];
    }

    /** A blocking read of n bytes: the caller gets the next n bytes the
        device sent, in order. */
    method Read(n: nat) returns (buf: seq<bv8>)
      requires n <= |unread|
      modifies this`unread
      ensures buf == old(unread)[..n] && unread == old(unread)[n..]
    {
      buf := unread[..n];
      unread := unread[n..];
    }

    /** Sends a command string to the device. */
    method Write(cmd: string)
      modifies this`written
      ensures written == old(written) + [cmd]
    {
      written := written + [cmd];
    }
  }
}
