/** The serial port as the object whose attributes the threads update. Each method is one locked or otherwise
  * atomic block; its contract is the corresponding operation of `SerialPorts` on the object's state. */
module SerialPortObject {
  import opened Bytes
  import SP = SerialPorts

  class SerialPort {
    var isOpen: bool                       // of the device handle
    var isConnected: bool
    var closeSet: bool
    var openEpoch: nat
    var receivers: map<nat, SP.Receiver>   // live receiver threads
    var reconnectors: set<nat>             // live reconnect threads
    var reconnectThread: Option<nat>
    var nextThread: nat
    ghost var attempted: bool
    ghost var connects: nat
    ghost var disconnects: nat

    // sending
    const charMode: bool
    const sendCharDelay: nat
    const waitEcho: nat
    var lastByte: byte
    var now: nat
    ghost var written: bytes               // what the device has accepted

    ghost function State(): SP.Port
      reads this
    {
      SP.Port(isOpen, isConnected, closeSet, openEpoch, receivers, reconnectors, reconnectThread, nextThread,
              attempted, connects, disconnects)
    }

    constructor (charMode: bool, sendCharDelay: nat, waitEcho: nat)
      ensures State() == SP.NEW_PORT && written == []
      ensures this.charMode == charMode && this.sendCharDelay == sendCharDelay && this.waitEcho == waitEcho
    {
      this.charMode, this.sendCharDelay, this.waitEcho := charMode, sendCharDelay, waitEcho;
      isOpen, isConnected, closeSet, openEpoch := false, false, false, 0;
      receivers, reconnectors, reconnectThread, nextThread := map[], {}, None, 0;
      attempted, connects, disconnects := false, 0, 0;
      lastByte, now, written := 0, 0, [];
    }

    method StartReconnect()
      modifies this
      ensures State() == SP.StartReconnect(old(State())) && written == old(written)
    {
      reconnectThread := Some(nextThread);
      reconnectors := reconnectors + {nextThread};
      nextThread := nextThread + 1;
    }

    /** `opens` is what the device says; the call raises exactly if it fails and `throw` is set. */
    method OpenUnderLock(opens: bool, throw: bool) returns (raised: bool)
      modifies this
      ensures State() == SP.OpenLocked(old(State()), opens, throw) && written == old(written)
      ensures raised <==> throw && !old(isOpen) && !opens
    {
      raised := false;
      if !isOpen {
        isOpen := opens;
        if !isOpen && throw {
          raised := true;
          return;
        }
      }
      if isOpen && !isConnected {
        connects := connects + 1;
      }
      attempted := true;
      isConnected := isOpen;
      if isConnected {
        openEpoch := openEpoch + 1;
        receivers := receivers[nextThread := SP.Receiver(openEpoch, SP.Starting)];
        nextThread := nextThread + 1;
      } else if reconnectThread == None || reconnectThread.value !in reconnectors {
        StartReconnect();
      }
    }

    method CloseUnderLock()
      modifies this
      ensures State() == SP.CloseLocked(old(State())) && written == old(written)
    {
      var wasConnected := isConnected;
      if isOpen {
        isOpen := false;
      }
      isConnected := false;
      if wasConnected {
        disconnects := disconnects + 1;
      }
    }

    method EnsureOpen(opens: bool)
      modifies this
      ensures State() == SP.EnsureOpen(old(State()), opens) && written == old(written)
    {
      if !isConnected {
        closeSet := false;
        var _ := OpenUnderLock(opens, false);
      }
    }

    method Close()
      modifies this
      ensures State() == SP.Close(old(State())) && written == old(written)
    {
      closeSet := true;
      CloseUnderLock();
    }

    /** The end of a receiver thread. */
    method ReceiverExit(r: nat)
      requires r in receivers
      modifies this
      ensures State() == SP.ReceiverExit(old(State()), r) && written == old(written)
    {
      var epoch := receivers[r].epoch;
      receivers := receivers - {r};
      if epoch != openEpoch {
        return;
      }
      if !closeSet {
        CloseUnderLock();
        StartReconnect();
      }
    }

    /** One round of a reconnect thread; `present` says whether the device is listed. */
    method ReconnectRound(r: nat, present: bool, opens: bool)
      modifies this
      ensures State() == SP.ReconnectRound(old(State()), r, present, opens) && written == old(written)
    {
      if !isOpen && !closeSet {
        if present {
          var _ := OpenUnderLock(opens, true);
        }
      } else {
        reconnectors := reconnectors - {r};
      }
    }

    // ---------------------------------------------------------------------------- sending

    /** The device takes bytes until it has taken `accepts` of them and refuses the rest. */
    method WriteAll(data: bytes, accepts: nat)
      modifies this`written
      ensures accepts >= |data| ==> written == old(written) + data
      ensures accepts < |data| ==> written == old(written) + data[..accepts]
    {
      written := written + if accepts < |data| then data[..accepts] else data;
    }

    /** One byte at a time, with a pause and a bounded wait for the echo after each. The clock advances and the
      * receiver may overwrite the last byte at any moment. */
    method SendChars(data: bytes, accepts: nat)
      modifies this`written, this`lastByte, this`now
      ensures accepts >= |data| ==> written == old(written) + data
      ensures accepts < |data| ==> written == old(written) + data[..accepts]
      ensures now >= old(now)
    {
      var k := 0;
      assert data[..0] == [];
      while k < |data|
        invariant 0 <= k <= |data| && k <= accepts
        invariant written == old(written) + data[..k]
        invariant now >= old(now)
      {
        if k == accepts {
          return;
        }
        written := written + [data[k]];
        now := now + sendCharDelay;
        if waitEcho > 0 && data[k] != 0 {
          WaitForEcho(data[k]);
        }
        assert data[..k + 1] == data[..k] + [data[k]];
        k := k + 1;
      }
      assert data[..k] == data;
    }

    method WaitForEcho(sent: byte)
      modifies this`lastByte, this`now
      ensures now >= old(now)
    {
      var t := now;
      while now - t < waitEcho
        invariant now >= t
        decreases waitEcho - (now - t)
      {
        if lastByte == sent {
          lastByte := 0;
          break;
        }
        var tick: nat, received: byte :| tick > 0;
        now, lastByte := now + tick, received;
      }
    }

    /** Character mode and bulk mode put the same bytes on the line, in the same order: all of them, if the device
      * takes them. */
    method Send(data: bytes, accepts: nat)
      modifies this`written, this`lastByte, this`now
      ensures accepts >= |data| ==> written == old(written) + data
      ensures accepts < |data| ==> written == old(written) + data[..accepts]
    {
      if charMode || sendCharDelay > 0 || waitEcho > 0 {
        SendChars(data, accepts);
      } else {
        WriteAll(data, accepts);
      }
    }
  }
}
