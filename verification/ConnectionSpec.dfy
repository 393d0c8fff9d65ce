/**
 What one TcpConnection promises when it is driven by its own loop: sends are
 written through to the socket or kept in the output buffer, write events drain
 it, and the write side is shut gracefully.

 `Conn` is the connection as a value; the functions on it are what the methods
 of `Connections.TcpConnection` are proved to do.  The promises over whole runs -
 the output stream is exact, the write side is shut once and only when everything
 has been handed to the kernel, no buffered byte is stranded - are lemmas about
 runs of those functions.
 */
module ConnectionSpec {
  import opened Bytes
  import opened Buffering
  import opened Polling

  datatype State = Disconnected | Connecting | Connected | Disconnecting

  datatype Errno = WouldBlock | Pipe | Reset | OtherErrno

  // What ::write answers when offered some bytes: how many it took, or an error.
  datatype WriteAnswer = Took(n: nat) | WriteFailed(errno: Errno)

  // Callbacks queued on the loop by the connection.
  datatype Note = WriteComplete | HighWaterMark(bytes: nat)

  // The callbacks the user installed, and the high-water mark.
  datatype Config = Config(writeComplete: bool, highWater: bool, mark: nat)

  datatype Conn = Conn(
    state: State,
    sent: seq<byte>,        // bytes the kernel has taken
    output: Queue,          // outputBuffer_
    events: Mask,           // the channel's interest
    index: Index,           // the channel's standing with the poller
    shutdowns: nat,         // how often socket_->shutdownWrite ran
    notes: seq<Note>,       // queued callbacks, in order
    reports: seq<bool>)     // connectionCallback_ runs: was the connection up?
  {
    function Pending(): seq<byte> { output.content }

    predicate Alive() { state.Connected? || state.Disconnecting? }
  }

  function Faulty(answer: WriteAnswer): bool {
    answer.WriteFailed? && (answer.errno.Pipe? || answer.errno.Reset?)
  }

  function TakenBy(answer: WriteAnswer): nat {
    if answer.Took? then answer.n else 0
  }

  predicate KernelObeys(offered: nat, answer: WriteAnswer) {
    answer.Took? ==> answer.n <= offered
  }

  // ----- What each method does -----

  function Watched(c: Conn, events: Mask): Conn {
    c.(events := events, index := IndexAfterUpdate(c.index, events))
  }

  // The write-through part of sendInLoop.
  function WriteThrough(c: Conn, cfg: Config, data: seq<byte>, answer: WriteAnswer): Conn
    requires KernelObeys(|data|, answer)
  {
    if c.events.write || c.Pending() != [] then c
    else
      c.(sent := c.sent + data[..TakenBy(answer)],
         notes := if answer == Took(|data|) && cfg.writeComplete then c.notes + [WriteComplete] else c.notes)
  }

  // The write-behind part: keep `rest` and ask for write events.
  function WriteBehind(c: Conn, cfg: Config, rest: seq<byte>): Conn
    requires c.output.Ok()
  {
    var oldLen := |c.Pending()|;
    var warn := cfg.highWater && oldLen < cfg.mark <= oldLen + |rest|;
    var c1 := c.(notes := if warn then c.notes + [HighWaterMark(oldLen + |rest|)] else c.notes,
                 output := c.output.Appended(rest));
    if c1.events.write then c1 else Watched(c1, c1.events.(write := true))
  }

  function SendInLoop(c: Conn, cfg: Config, data: seq<byte>, answer: WriteAnswer): Conn
    requires c.output.Ok() && KernelObeys(|data|, answer)
  {
    if c.state.Disconnected? then c
    else
      var direct := !c.events.write && c.Pending() == [];
      var rest := if direct then data[TakenBy(answer)..] else data;
      var c1 := WriteThrough(c, cfg, data, answer);
      if rest != [] && !(direct && Faulty(answer)) then WriteBehind(c1, cfg, rest) else c1
  }

  function Send(c: Conn, cfg: Config, data: seq<byte>, answer: WriteAnswer): Conn
    requires c.output.Ok() && KernelObeys(|data|, answer)
  {
    if c.state.Connected? then SendInLoop(c, cfg, data, answer) else c
  }

  function ShutdownInLoop(c: Conn): Conn {
    if c.events.write then c else c.(shutdowns := c.shutdowns + 1)
  }

  function Shutdown(c: Conn): Conn {
    if c.state.Connected? then ShutdownInLoop(c.(state := Disconnecting)) else c
  }

  // The buffer has run empty: stop watching for writes, tell the user, finish a shutdown.
  function Drained(c: Conn, cfg: Config): Conn {
    var c1 := Watched(c, c.events.(write := false));
    var c2 := if cfg.writeComplete then c1.(notes := c1.notes + [WriteComplete]) else c1;
    if c2.state.Disconnecting? then ShutdownInLoop(c2) else c2
  }

  function HandleWrite(c: Conn, cfg: Config, answer: WriteAnswer): Conn
    requires KernelObeys(|c.Pending()|, answer)
  {
    if !c.events.write || TakenBy(answer) == 0 then c
    else
      var c1 := c.(sent := c.sent + c.Pending()[..answer.n], output := c.output.Retrieved(answer.n));
      if c1.Pending() != [] then c1 else Drained(c1, cfg)
  }

  function Established(c: Conn): Conn {
    Watched(c.(state := Connected), c.events.(read := true)).(reports := c.reports + [true])
  }

  function HandleClose(c: Conn): Conn {
    Watched(c.(state := Disconnected), NONE_EVENT).(reports := c.reports + [false])
  }

  function Destroyed(c: Conn): Conn {
    var c1 := if c.state.Connected? then HandleClose(c) else c;
    c1.(index := New)
  }

  // ----- Whole runs -----

  function Initial(): Conn {
    Conn(Connecting, [], Queue(CHEAP_PREPEND + INITIAL_SIZE, CHEAP_PREPEND, []), NONE_EVENT, New, 0, [], [])
  }

  // What can happen to the connection on its loop, with the kernel's answers.
  datatype Op =
    | OpSend(data: seq<byte>, answer: WriteAnswer)
    | OpShutdown
    | OpWriteEvent(answer: WriteAnswer)
    | OpClose
    | OpDestroy

  // The bookkeeping of a connection, from establishment to destruction.
  ghost predicate Inv(c: Conn) {
    && c.output.Ok()
    // before the connection is down, EPOLLOUT is wanted - and registered - exactly
    // while bytes wait in the output buffer
    && (c.Alive() ==> c.index.Added? && c.events == Mask(true, c.Pending() != []))
    && (c.state.Disconnected? ==> !c.events.write)
    && !c.state.Connecting?
    // the write side is shut only by a drained, disconnecting connection
    && (c.state.Connected? ==> c.shutdowns == 0)
    && (c.state.Disconnecting? ==> c.shutdowns == if c.Pending() == [] then 1 else 0)
    && c.shutdowns <= 1
    && (c.shutdowns == 1 ==> c.Pending() == [])
  }

  predicate Possible(c: Conn, op: Op) {
    && c.output.Ok()
    && (op.OpSend? ==> KernelObeys(|op.data|, op.answer))
    && (op.OpWriteEvent? ==> KernelObeys(|c.Pending()|, op.answer))
    // connectDestroyed runs only on a connection that handleClose has taken down
    && (op.OpDestroy? ==> c.state.Disconnected?)
  }

  function Step(c: Conn, cfg: Config, op: Op): Conn
    requires Possible(c, op)
  {
    match op
    case OpSend(data, answer) => Send(c, cfg, data, answer)
    case OpShutdown => Shutdown(c)
    case OpWriteEvent(answer) => HandleWrite(c, cfg, answer)
    case OpClose => HandleClose(c)
    case OpDestroy => Destroyed(c)
  }

  // The bytes an operation adds to the output stream: all of a send, or nothing of one whose
  // direct write finds the peer gone.
  function Accepted(c: Conn, op: Op): seq<byte> {
    if op.OpSend? && c.state.Connected?
       && !(c.Pending() == [] && (op.answer == WriteFailed(Pipe) || op.answer == WriteFailed(Reset)))
    then op.data else []
  }

  ghost predicate Runs(c: Conn, cfg: Config, ops: seq<Op>)
    decreases ops
  {
    ops == [] || (Possible(c, ops[0]) && Runs(Step(c, cfg, ops[0]), cfg, ops[1..]))
  }

  ghost function Run(c: Conn, cfg: Config, ops: seq<Op>): Conn
    requires Runs(c, cfg, ops)
    decreases ops
  {
    if ops == [] then c else Run(Step(c, cfg, ops[0]), cfg, ops[1..])
  }

  ghost function AcceptedStream(c: Conn, cfg: Config, ops: seq<Op>): seq<byte>
    requires Runs(c, cfg, ops)
    decreases ops
  {
    if ops == [] then [] else Accepted(c, ops[0]) + AcceptedStream(Step(c, cfg, ops[0]), cfg, ops[1..])
  }

  // What one operation preserves, and what it adds to the output stream.
  ghost predicate Kept(c: Conn, d: Conn, accepted: seq<byte>) {
    && Inv(d)
    && d.sent + d.Pending() == c.sent + c.Pending() + accepted
    && c.sent <= d.sent
    && c.shutdowns <= d.shutdowns
    && (c.shutdowns == 1 ==> d.sent == c.sent && accepted == [])
  }

  lemma BehindKeeps(c: Conn, cfg: Config, rest: seq<byte>)
    requires c.output.Ok() && rest != [] && c.state.Connected? && c.index.Added? && c.shutdowns == 0
    requires c.events == Mask(true, c.Pending() != [])
    ensures var d := WriteBehind(c, cfg, rest);
            Inv(d) && d.sent == c.sent && d.Pending() == c.Pending() + rest && d.shutdowns == 0
  {
  }

  // A send that finds the buffer empty, and one that does not.
  lemma DirectKeeps(c: Conn, cfg: Config, data: seq<byte>, answer: WriteAnswer)
    requires Inv(c) && KernelObeys(|data|, answer) && c.state.Connected? && c.Pending() == []
    ensures Kept(c, Send(c, cfg, data, answer), Accepted(c, OpSend(data, answer)))
  {
    hide WriteBehind;
    var n := TakenBy(answer);
    assert data[..n] + data[n..] == data;
    if n < |data| && !Faulty(answer) {
      BehindKeeps(WriteThrough(c, cfg, data, answer), cfg, data[n..]);
    }
  }

  lemma BufferedKeeps(c: Conn, cfg: Config, data: seq<byte>, answer: WriteAnswer)
    requires Inv(c) && KernelObeys(|data|, answer) && c.state.Connected? && c.Pending() != []
    ensures Kept(c, Send(c, cfg, data, answer), Accepted(c, OpSend(data, answer)))
  {
    hide WriteBehind;
    if data != [] {
      BehindKeeps(c, cfg, data);
    }
  }

  lemma SendKeeps(c: Conn, cfg: Config, data: seq<byte>, answer: WriteAnswer)
    requires Inv(c) && KernelObeys(|data|, answer)
    ensures Kept(c, Send(c, cfg, data, answer), Accepted(c, OpSend(data, answer)))
  {
    hide SendInLoop;
    if c.state.Connected? {
      if c.Pending() == [] {
        DirectKeeps(c, cfg, data, answer);
      } else {
        BufferedKeeps(c, cfg, data, answer);
      }
    }
  }

  lemma WriteEventKeeps(c: Conn, cfg: Config, answer: WriteAnswer)
    requires Inv(c) && KernelObeys(|c.Pending()|, answer)
    ensures Kept(c, HandleWrite(c, cfg, answer), [])
  {
    var p := c.Pending();
    assert p[..TakenBy(answer)] + p[TakenBy(answer)..] == p;
  }

  // A connected send keeps all of its bytes, in the kernel or in the buffer, unless the direct
  // write meets EPIPE or ECONNRESET; then it changes nothing but is lost.
  lemma SendTakesAll(c: Conn, cfg: Config, data: seq<byte>, answer: WriteAnswer)
    requires Inv(c) && c.state.Connected? && KernelObeys(|data|, answer)
    ensures var d := Send(c, cfg, data, answer);
            if c.Pending() == [] && (answer == WriteFailed(Pipe) || answer == WriteFailed(Reset)) then d == c
            else
              && d.sent + d.Pending() == c.sent + c.Pending() + data
              && d.sent == c.sent + (if c.Pending() == [] && answer.Took? then data[..answer.n] else [])
              && d.events == Mask(true, d.Pending() != []) && d.index.Added? && d.state == c.state
              && d.shutdowns == c.shutdowns && d.reports == c.reports
  {
    SendKeeps(c, cfg, data, answer);
  }

  // A send that is not on a connected connection is ignored.
  lemma SendIgnored(c: Conn, cfg: Config, data: seq<byte>, answer: WriteAnswer)
    requires c.output.Ok() && KernelObeys(|data|, answer)
    ensures !c.state.Connected? ==> Send(c, cfg, data, answer) == c
  {
  }

  // A shutdown takes effect exactly once: at once if nothing is buffered, and otherwise it is
  // left to the write event that empties the buffer.
  lemma ShutdownTakes(c: Conn)
    requires Inv(c)
    ensures var d := Shutdown(c);
            if c.state.Connected? then
              d == c.(state := Disconnecting, shutdowns := if c.Pending() == [] then 1 else 0)
            else d == c
  {
  }

  // A write event moves what the kernel takes from the buffer to it; one that is refused, for
  // whatever reason, changes nothing.
  lemma WriteEventMoves(c: Conn, cfg: Config, answer: WriteAnswer)
    requires Inv(c) && c.Alive() && KernelObeys(|c.Pending()|, answer)
    ensures var d := HandleWrite(c, cfg, answer);
            var n := if answer.Took? then answer.n else 0;
            && d.sent == c.sent + c.Pending()[..n] && d.Pending() == c.Pending()[n..]
            && d.state == c.state && d.reports == c.reports && d.index.Added? && d.events == Mask(true, d.Pending() != [])
            && (n == 0 ==> d == c)
  {
    WriteEventKeeps(c, cfg, answer);
  }

  // Coming up and going down move no byte and queue no callback.
  lemma UpAndDown(c: Conn)
    ensures var d := Established(c);
            && d.state.Connected? && d.reports == c.reports + [true] && d.events == c.events.(read := true)
            && d.sent == c.sent && d.output == c.output && d.shutdowns == c.shutdowns && d.notes == c.notes
    ensures var d := HandleClose(c);
            && d.state.Disconnected? && d.reports == c.reports + [false] && !d.events.read && !d.events.write
            && d.sent == c.sent && d.output == c.output && d.shutdowns == c.shutdowns && d.notes == c.notes
  {
  }

  // A write event that empties the buffer of a connection that is being shut down shuts it.
  lemma DrainShuts(c: Conn, cfg: Config, answer: WriteAnswer)
    requires Inv(c) && c.Alive() && c.Pending() != [] && answer == Took(|c.Pending()|)
    ensures var d := HandleWrite(c, cfg, answer);
            && d.Pending() == [] && d.sent == c.sent + c.Pending() && !d.events.write && d.events.read
            && d.shutdowns == (if c.state.Disconnecting? then 1 else 0) && d.state == c.state
  {
    WriteEventKeeps(c, cfg, answer);
  }

  // A connection that is destroyed while it is up goes down first; one that is being shut down
  // is not reported.
  lemma DestroyedGoesDown(c: Conn)
    requires Inv(c)
    ensures var d := Destroyed(c);
            && d.index.New? && d.sent == c.sent && d.output == c.output && d.shutdowns == c.shutdowns
            && d.reports == (if c.state.Connected? then c.reports + [false] else c.reports)
            && d.state == (if c.state.Connected? then Disconnected else c.state)
            && d.events == (if c.state.Connected? then Mask(false, false) else c.events)
  {
  }

  lemma StepKeeps(c: Conn, cfg: Config, op: Op)
    requires Inv(c) && Possible(c, op)
    ensures Kept(c, Step(c, cfg, op), Accepted(c, op))
  {
    match op {
      case OpSend(data, answer) => SendKeeps(c, cfg, data, answer);
      case OpWriteEvent(answer) => WriteEventKeeps(c, cfg, answer);
      case _ =>
    }
  }

  // For every run: the invariant, exactness of the output stream, and half-close.
  lemma {:induction false} RunKeeps(c: Conn, cfg: Config, ops: seq<Op>)
    requires Inv(c) && Runs(c, cfg, ops)
    ensures Kept(c, Run(c, cfg, ops), AcceptedStream(c, cfg, ops))
    decreases ops
  {
    if ops != [] {
      StepKeeps(c, cfg, ops[0]);
      RunKeeps(Step(c, cfg, ops[0]), cfg, ops[1..]);
    }
  }

  // A new connection, once established, is in the invariant with nothing sent.
  lemma EstablishedHolds()
    ensures Inv(Established(Initial()))
  {
  }

  // From establishment on, what reached the kernel is a prefix of what was accepted, the
  // rest is in the buffer, and a shut write side means that all of it reached the kernel.
  lemma OutputStreamExact(cfg: Config, ops: seq<Op>)
    requires Runs(Established(Initial()), cfg, ops)
    ensures var c := Established(Initial());
            var d := Run(c, cfg, ops);
            var stream := AcceptedStream(c, cfg, ops);
            && d.sent + d.Pending() == stream
            && d.shutdowns <= 1
            && (d.shutdowns == 1 ==> d.sent == stream)
  {
    RunKeeps(Established(Initial()), cfg, ops);
  }

  // Once shut, the write side stays shut: whatever runs next sends nothing and accepts nothing.
  lemma NothingAfterShutdown(cfg: Config, before: seq<Op>, after: seq<Op>)
    requires Runs(Established(Initial()), cfg, before)
    requires Run(Established(Initial()), cfg, before).shutdowns == 1
    requires Runs(Run(Established(Initial()), cfg, before), cfg, after)
    ensures var d := Run(Established(Initial()), cfg, before);
            var e := Run(d, cfg, after);
            e.sent == d.sent && e.shutdowns == 1 && AcceptedStream(d, cfg, after) == []
  {
    RunKeeps(Established(Initial()), cfg, before);
    RunKeeps(Run(Established(Initial()), cfg, before), cfg, after);
  }

  predicate Draining(ops: seq<Op>) {
    forall i :: 0 <= i < |ops| ==> ops[i].OpWriteEvent? && ops[i].answer.Took? && ops[i].answer.n >= 1
  }

  // No buffered byte is stranded: every write event that takes a byte brings the buffer
  // that much closer to empty, and once it is empty a deferred shutdown has taken place.
  lemma {:induction false} DrainCompletes(c: Conn, cfg: Config, ops: seq<Op>)
    requires Inv(c) && c.Alive() && Runs(c, cfg, ops) && Draining(ops)
    ensures var d := Run(c, cfg, ops);
            && |ops| <= |c.Pending()| - |d.Pending()|
            && d.state == c.state
            && d.sent + d.Pending() == c.sent + c.Pending()
            && (d.Pending() == [] && c.state.Disconnecting? ==> d.shutdowns == 1)
    decreases ops
  {
    if ops != [] {
      StepKeeps(c, cfg, ops[0]);
      DrainCompletes(Step(c, cfg, ops[0]), cfg, ops[1..]);
    }
  }

  // ----- The callbacks queued for the user -----

  // What an operation from `c` to `d` owes the user, in terms of the bytes it moved: a
  // write-complete when a direct write took everything or the buffer ran empty, a high-water
  // mark when the buffer grew across it.
  function Due(c: Conn, cfg: Config, op: Op, d: Conn): seq<Note> {
    var emptied := match op
                   case OpSend(data, answer) => c.state.Connected? && c.Pending() == [] && answer == Took(|data|)
                   case OpWriteEvent(_) => c.Alive() && c.Pending() != [] && d.Pending() == []
                   case _ => false;
    if emptied then if cfg.writeComplete then [WriteComplete] else []
    else if op.OpSend? && cfg.highWater && |c.Pending()| < cfg.mark <= |d.Pending()| then
      [HighWaterMark(|d.Pending()|)]
    else []
  }

  lemma NotesAreDue(c: Conn, cfg: Config, op: Op)
    requires Inv(c) && Possible(c, op)
    ensures var d := Step(c, cfg, op); d.notes == c.notes + Due(c, cfg, op, d)
  {
    StepKeeps(c, cfg, op);
    match op {
      case OpSend(data, answer) => if c.state.Connected? { SendNotes(c, cfg, data, answer); }
      case OpWriteEvent(answer) =>
      case _ =>
    }
  }

  lemma SendNotes(c: Conn, cfg: Config, data: seq<byte>, answer: WriteAnswer)
    requires Inv(c) && c.state.Connected? && KernelObeys(|data|, answer)
    ensures var d := Send(c, cfg, data, answer); d.notes == c.notes + Due(c, cfg, OpSend(data, answer), d)
  {
  }

  ghost function AllDue(c: Conn, cfg: Config, ops: seq<Op>): seq<Note>
    requires Runs(c, cfg, ops)
    decreases ops
  {
    if ops == [] then []
    else
      var d := Step(c, cfg, ops[0]);
      Due(c, cfg, ops[0], d) + AllDue(d, cfg, ops[1..])
  }

  // Over every run the callbacks queued are the ones due, in order.
  lemma {:induction false} RunNotes(c: Conn, cfg: Config, ops: seq<Op>)
    requires Inv(c) && Runs(c, cfg, ops)
    ensures Run(c, cfg, ops).notes == c.notes + AllDue(c, cfg, ops)
    decreases ops
  {
    hide Inv, Step, Due, Possible;
    if ops != [] {
      var d := Step(c, cfg, ops[0]);
      StepKeeps(c, cfg, ops[0]);
      NotesAreDue(c, cfg, ops[0]);
      RunNotes(d, cfg, ops[1..]);
      assert c.notes + Due(c, cfg, ops[0], d) + AllDue(d, cfg, ops[1..])
          == c.notes + (Due(c, cfg, ops[0], d) + AllDue(d, cfg, ops[1..]));
    }
  }
}
