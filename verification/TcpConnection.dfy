/**
 The TcpConnection object: its socket, its channel and its output buffer, updated
 step by step.  Each method does to `View()` what the function of the same name
 in ConnectionSpec does.
 */
module Connections {
  import opened Bytes
  import opened Buffering
  import opened Polling
  import Spec = ConnectionSpec
  import opened ConnectionSpec

  // The connected socket: the kernel's side of the output stream.
  class Socket {
    var sent: seq<byte>
    var shutdowns: nat

    constructor ()
      ensures sent == [] && shutdowns == 0
    {
      sent, shutdowns := [], 0;
    }

    // ::write; never called once the write side has been shut.
    method Write(data: seq<byte>, answer: WriteAnswer) returns (n: int)
      requires shutdowns == 0
      requires KernelObeys(|data|, answer)
      modifies this`sent
      ensures sent == old(sent) + data[..TakenBy(answer)]
      ensures n == if answer.Took? then answer.n else -1
    {
      if answer.Took? {
        sent := sent + data[..answer.n];
        n := answer.n;
      } else {
        n := -1;
      }
    }

    method ShutdownWrite()
      modifies this`shutdowns
      ensures shutdowns == old(shutdowns) + 1
    {
      shutdowns := shutdowns + 1;
    }
  }

  class TcpConnection {
    const config: Config
    const socket: Socket
    const channel: Channel
    const outputBuffer: Buffer
    var state: State
    var notes: seq<Note>
    var reports: seq<bool>

    ghost predicate Valid()
      reads this, outputBuffer, channel, channel.poller, channel.poller.live, socket
      ensures Valid() ==> outputBuffer.Valid() && channel.poller.Agrees()
    {
      && outputBuffer.Valid()
      && channel in channel.poller.live
      && channel.poller.Agrees()
    }

    ghost function View(): (c: Conn)
      requires Valid()
      reads this, outputBuffer, outputBuffer.storage, channel, channel.poller, channel.poller.live, socket
      ensures c.output.Ok()
    {
      Conn(state, socket.sent, outputBuffer.View(), channel.events, channel.index, socket.shutdowns, notes, reports)
    }

    // The only buffer this connection can come to own is its own or a new one.
    twostate predicate SameOrNewStorage()
      reads outputBuffer
    {
      outputBuffer.storage == old(outputBuffer.storage) || fresh(outputBuffer.storage)
    }

    constructor (config: Config, poller: EPollPoller, fd: int)
      requires poller.Agrees()
      requires forall c :: c in poller.live ==> c.fd != fd
      modifies poller
      ensures Valid() && channel.poller == poller && channel.fd == fd && this.config == config
      ensures View() == Initial()
    {
      this.config := config;
      socket := new Socket();
      channel := new Channel(poller, fd);
      outputBuffer := new Buffer(INITIAL_SIZE);
      state, notes, reports := Connecting, [], [];
    }

    // The direct write of sendInLoop; `fault` is a peer that is gone.
    method WriteThrough(data: seq<byte>, answer: WriteAnswer) returns (nwrote: nat, fault: bool)
      requires Valid() && KernelObeys(|data|, answer)
      requires socket.shutdowns == 0 && !channel.events.write && View().Pending() == []
      modifies this`notes, socket`sent
      ensures Valid()
      ensures View() == Spec.WriteThrough(old(View()), config, data, answer)
      ensures nwrote == TakenBy(answer) && fault == Faulty(answer)
    {
      fault := false;
      var n := socket.Write(data, answer);
      if n >= 0 {
        nwrote := n;
        if |data| - n == 0 && config.writeComplete {
          notes := notes + [WriteComplete];
        }
      } else {
        nwrote := 0;
        if answer.errno != WouldBlock {
          if answer.errno == Pipe || answer.errno == Reset {
            fault := true;
          }
        }
      }
    }

    // The rest of sendInLoop: buffer what was not written and ask for write events.
    method WriteBehind(rest: seq<byte>)
      requires Valid()
      modifies this`notes, outputBuffer, outputBuffer.storage, channel, channel.poller
      ensures Valid() && SameOrNewStorage()
      ensures View() == Spec.WriteBehind(old(View()), config, rest)
    {
      var oldLen := outputBuffer.ReadableBytes();
      if oldLen + |rest| >= config.mark && oldLen < config.mark && config.highWater {
        notes := notes + [HighWaterMark(oldLen + |rest|)];
      }
      outputBuffer.Append(rest);
      if !channel.events.write {
        channel.EnableWriting();
      }
    }

    method SendInLoop(data: seq<byte>, answer: WriteAnswer)
      requires Valid() && KernelObeys(|data|, answer)
      requires !state.Disconnected? ==> socket.shutdowns == 0
      modifies this`notes, outputBuffer, outputBuffer.storage, channel, channel.poller, socket`sent
      ensures Valid() && SameOrNewStorage()
      ensures View() == Spec.SendInLoop(old(View()), config, data, answer)
    {
      hide Spec.WriteBehind;
      if state == Disconnected {
        return;
      }
      var nwrote, faultError := 0, false;
      var readable := outputBuffer.ReadableBytes();
      if !channel.events.write && readable == 0 {
        nwrote, faultError := WriteThrough(data, answer);
      }
      if !faultError && |data| - nwrote > 0 {
        WriteBehind(data[nwrote..]);
      }
    }

    method Send(data: seq<byte>, answer: WriteAnswer)
      requires Valid() && KernelObeys(|data|, answer)
      requires state.Connected? ==> socket.shutdowns == 0
      modifies this, outputBuffer, outputBuffer.storage, channel, channel.poller, socket
      ensures Valid() && SameOrNewStorage()
      ensures View() == Spec.Send(old(View()), config, data, answer)
    {
      if state == Connected {
        SendInLoop(data, answer);
      }
    }

    method ShutdownInLoop()
      requires Valid()
      modifies socket`shutdowns
      ensures Valid()
      ensures View() == Spec.ShutdownInLoop(old(View()))
    {
      if !channel.events.write {
        socket.ShutdownWrite();
      }
    }

    method Shutdown()
      requires Valid()
      modifies this`state, socket`shutdowns
      ensures Valid()
      ensures View() == Spec.Shutdown(old(View()))
    {
      if state == Connected {
        state := Disconnecting;
        ShutdownInLoop();
      }
    }

    // The end of handleWrite, when the buffer has just run empty.
    method Drained()
      requires Valid()
      modifies this`notes, channel, channel.poller, socket`shutdowns
      ensures Valid()
      ensures View() == Spec.Drained(old(View()), config)
    {
      channel.DisableWriting();
      if config.writeComplete {
        notes := notes + [WriteComplete];
      }
      if state == Disconnecting {
        ShutdownInLoop();
      }
    }

    method HandleWrite(answer: WriteAnswer)
      requires Valid() && KernelObeys(|View().Pending()|, answer)
      requires channel.events.write ==> socket.shutdowns == 0
      modifies this`notes, outputBuffer, channel, channel.poller, socket
      ensures Valid() && outputBuffer.storage == old(outputBuffer.storage)
      ensures View() == Spec.HandleWrite(old(View()), config, answer)
    {
      if channel.events.write {
        var data := outputBuffer.Peek();
        var n := socket.Write(data, answer);
        if n > 0 {
          outputBuffer.Retrieve(n);
          var readable := outputBuffer.ReadableBytes();
          if readable == 0 {
            Drained();
          }
        }
      }
    }

    method ConnectEstablished()
      requires Valid()
      modifies this, channel, channel.poller
      ensures Valid()
      ensures View() == Established(old(View()))
    {
      state := Connected;
      channel.EnableReading();
      reports := reports + [true];
    }

    method HandleClose()
      requires Valid()
      modifies this, channel, channel.poller
      ensures Valid()
      ensures View() == Spec.HandleClose(old(View()))
    {
      state := Disconnected;
      channel.DisableAll();
      reports := reports + [false];
    }

    method ConnectDestroyed()
      requires Valid()
      modifies this, channel, channel.poller
      ensures Valid()
      ensures View() == Destroyed(old(View()))
    {
      if state == Connected {
        state := Disconnected;
        channel.DisableAll();
        reports := reports + [false];
      }
      channel.Remove();
    }

    // Any run of operations on the connection's loop, as ConnectionSpec.Run; every precondition
    // on the way follows from the invariant.
    method Drive(ops: seq<Spec.Op>)
      requires Valid() && Inv(View()) && Spec.Runs(View(), config, ops)
      modifies this, outputBuffer, outputBuffer.storage, channel, channel.poller, socket
      ensures Valid() && SameOrNewStorage()
      ensures View() == Spec.Run(old(View()), config, ops)
      ensures Kept(old(View()), View(), AcceptedStream(old(View()), config, ops))
      decreases |ops|
    {
      Spec.RunKeeps(View(), config, ops);
      if ops != [] {
        Spec.StepKeeps(View(), config, ops[0]);
        Perform(ops[0]);
        Drive(ops[1..]);
      }
    }

    method Perform(op: Spec.Op)
      requires Valid() && Inv(View()) && Spec.Possible(View(), op)
      modifies this, outputBuffer, outputBuffer.storage, channel, channel.poller, socket
      ensures Valid() && SameOrNewStorage()
      ensures View() == Spec.Step(old(View()), config, op)
    {
      match op {
        case OpSend(data, answer) => Send(data, answer);
        case OpShutdown => Shutdown();
        case OpWriteEvent(answer) => HandleWrite(answer);
        case OpClose => HandleClose();
        case OpDestroy => ConnectDestroyed();
      }
    }
  }
}
