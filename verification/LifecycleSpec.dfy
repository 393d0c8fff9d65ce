/**
 TcpServer handing connections between the base loop and the I/O loops.

 The whole server is one state: every loop with its functor queue, the channels
 its poll has reported and the handler it is in; every connection ever accepted;
 and the server's connection map.  A step is what one thread does between two
 points where other threads can interfere, so the runs of this machine are the
 interleavings of the real threads.
 */
module LifecycleSpec {
  import opened Bytes
  import opened Polling
  import opened Buffering
  import opened LoopSpec
  import Connection = ConnectionSpec

  type ConnId = nat
  type LoopId = nat

  const BASE: LoopId := 0

  // The functors that carry a connection between threads; each owns it (a shared_ptr).
  datatype Task =
    | Establish(conn: ConnId)   // TcpConnection::connectEstablished
    | Remove(conn: ConnId)      // TcpServer::removeConnectionInLoop
    | Destroy(conn: ConnId)     // TcpConnection::connectDestroyed
    | Notify(conn: ConnId)      // a write-complete or high-water callback

  datatype Revents = Revents(hup: bool, input: bool, pri: bool, rdhup: bool, out: bool) {
    predicate HangupOnly() { hup && !input }

    predicate Readable() { input || pri || rdhup }
  }

  // Channel::handleEvent in progress, holding the connection: the callback to come.
  // (The error callback, between the first two, only logs.)
  datatype Stage = AtHangup | AtRead | AtWrite
  datatype Dispatch = Dispatch(conn: ConnId, revents: Revents, stage: Stage)

  datatype Loop = Loop(
    q: LoopState<Task>,
    active: seq<(ConnId, Revents)>,   // activeChannels_ still to be handled
    dispatch: Option<Dispatch>,
    running: Option<Task>,            // the functor being executed
    erased: bool)                     // ... a Remove that has erased and not yet queued

  datatype Entry = Entry(
    fd: int,
    io: LoopId,
    conn: Connection.Conn,
    established: nat,   // how often connectEstablished, the erase in the map
    erased: nat,        // and connectDestroyed have run
    destroyed: nat)

  datatype Server = Server(
    config: Connection.Config,
    loops: seq<Loop>,
    entries: seq<Entry>,
    connections: set<ConnId>)   // TcpServer::connections_

  // ----- Ownership -----

  function Count(loop: Loop, t: Task): nat {
    multiset(loop.q.pending)[t] + multiset(loop.q.batch)[t] + if loop.running == Some(t) then 1 else 0
  }

  ghost predicate Holds(loop: Loop, c: ConnId) {
    || (loop.dispatch.Some? && loop.dispatch.value.conn == c)
    || Count(loop, Establish(c)) + Count(loop, Remove(c)) + Count(loop, Destroy(c)) + Count(loop, Notify(c)) > 0
  }

  // Somebody has a shared_ptr to the connection: the map, a functor or a handler.
  ghost predicate Owned(s: Server, c: ConnId) {
    c in s.connections || exists l :: 0 <= l < |s.loops| && Holds(s.loops[l], c)
  }

  // ----- Pieces of steps -----

  function WithLoop(s: Server, l: LoopId, loop: Loop): Server
    requires l < |s.loops|
  {
    s.(loops := s.loops[l := loop])
  }

  function WithEntry(s: Server, c: ConnId, e: Entry): Server
    requires c < |s.entries|
  {
    s.(entries := s.entries[c := e])
  }

  // queueInLoop on loop `to`, called on the thread of loop `from`.
  function Queued(s: Server, from: LoopId, to: LoopId, t: Task): Server
    requires to < |s.loops|
  {
    var q := s.loops[to].q;
    WithLoop(s, to, s.loops[to].(q := if from == to then q.QueuedHere(t) else q.QueuedElsewhere(t)))
  }

  function EstablishNow(s: Server, c: ConnId): Server
    requires c < |s.entries|
  {
    var e := s.entries[c];
    WithEntry(s, c, e.(conn := Connection.Established(e.conn), established := e.established + 1))
  }

  function EraseNow(s: Server, c: ConnId): Server
    requires c < |s.entries|
  {
    WithEntry(s, c, s.entries[c].(erased := s.entries[c].erased + 1)).(connections := s.connections - {c})
  }

  // handleClose on the thread of loop `l`, up to and including removeConnection.
  function CloseNow(s: Server, l: LoopId, c: ConnId): Server
    requires |s.loops| > 0 && c < |s.entries| && s.entries[c].io < |s.loops|
  {
    var e := s.entries[c];
    var s1 := WithEntry(s, c, e.(conn := Connection.HandleClose(e.conn)));
    if l == BASE then Queued(EraseNow(s1, c), BASE, e.io, Destroy(c)) else Queued(s1, l, BASE, Remove(c))
  }

  // The connection becomes `conn`; what it queued for the user goes to its loop.
  function Updated(s: Server, l: LoopId, c: ConnId, conn: Connection.Conn): Server
    requires l < |s.loops| && c < |s.entries|
  {
    var s1 := WithEntry(s, c, s.entries[c].(conn := conn));
    if conn.notes == s.entries[c].conn.notes then s1 else Queued(s1, l, l, Notify(c))
  }

  // ----- Steps -----

  datatype Step =
    | Accept(fd: int, io: LoopId)                                      // TcpServer::newConnection
    | Poll(l: LoopId, reported: seq<(ConnId, Revents)>)
    | Drain(l: LoopId)
    | Handle(l: LoopId)                                                // enter the next channel's handleEvent
    | Callback(l: LoopId, eof: bool, answer: Connection.WriteAnswer)   // one callback of handleEventWithGuard
    | StartFunctors(l: LoopId)
    | SwapFunctors(l: LoopId)
    | Take(l: LoopId)
    | Execute(l: LoopId)
    | EndFunctors(l: LoopId)
    | RingBell(l: LoopId)                                              // the eventfd write owed by a foreign push
    | User(l: LoopId, c: ConnId, op: Connection.Op)                    // send or shutdown on the connection's loop

  // epoll_wait reports registered descriptors only, and only what it was asked for
  // besides hang-ups and errors.  No channel asks for EPOLLRDHUP.
  predicate Reportable(s: Server, l: LoopId, c: ConnId, r: Revents) {
    && c < |s.entries| && s.entries[c].io == l && s.entries[c].conn.index.Added?
    && (r.input || r.pri ==> s.entries[c].conn.events.read)
    && (r.out ==> s.entries[c].conn.events.write)
    && !r.rdhup
  }

  predicate Distinct(reported: seq<(ConnId, Revents)>) {
    forall i, j :: 0 <= i < j < |reported| ==> reported[i].0 != reported[j].0
  }

  function LoopOf(step: Step): LoopId {
    if step.Accept? then BASE else step.l
  }

  ghost predicate Allowed(s: Server, step: Step) {
    && LoopOf(step) < |s.loops|
    && var loop := s.loops[LoopOf(step)];
    match step
    case Accept(fd, io) =>
      // the kernel hands out a descriptor that no existing connection has open
      && io < |s.loops| && loop.q.phase.Handling? && loop.dispatch.None?
      && forall c :: 0 <= c < |s.entries| && Owned(s, c) ==> s.entries[c].fd != fd
    case Poll(l, reported) =>
      && loop.q.phase.AtPoll? && Distinct(reported)
      && forall i :: 0 <= i < |reported| ==> Reportable(s, l, reported[i].0, reported[i].1)
    case Drain(l) => LoopSpec.Enabled(loop.q, DrainWakeup)
    case Handle(l) => loop.q.phase.Handling? && loop.dispatch.None? && loop.active != []
    case Callback(l, eof, answer) =>
      && loop.dispatch.Some?
      && var c := loop.dispatch.value.conn;
      && c < |s.entries| && s.entries[c].io < |s.loops|
      && Connection.KernelObeys(|s.entries[c].conn.Pending()|, answer)
    case StartFunctors(l) =>
      LoopSpec.Enabled(loop.q, BeginCalling) && loop.dispatch.None? && loop.active == []
    case SwapFunctors(l) => LoopSpec.Enabled(loop.q, Swap)
    case Take(l) => loop.running.None? && LoopSpec.Enabled(loop.q, TakeNext)
    case Execute(l) =>
      && loop.running.Some? && loop.running.value.conn < |s.entries|
      && s.entries[loop.running.value.conn].io < |s.loops|
    case EndFunctors(l) => loop.running.None? && LoopSpec.Enabled(loop.q, EndBatch)
    case RingBell(l) => LoopSpec.Enabled(loop.q, WriteElsewhere)
    case User(l, c, op) =>
      && (loop.q.phase.Handling? || loop.q.phase.Running?)
      && c < |s.entries| && s.entries[c].io == l && Owned(s, c)
      && (op.OpSend? || op.OpShutdown?) && Connection.Possible(s.entries[c].conn, op)
  }

  function AcceptNow(s: Server, fd: int, io: LoopId): Server
    requires io < |s.loops|
  {
    var c := |s.entries|;
    var e := Entry(fd, io, Connection.Initial(), 0, 0, 0);
    var s1 := s.(entries := s.entries + [e], connections := s.connections + {c});
    if io == BASE then EstablishNow(s1, c) else Queued(s1, BASE, io, Establish(c))
  }

  function CallbackNow(s: Server, l: LoopId, eof: bool, answer: Connection.WriteAnswer): Server
    requires l < |s.loops| && s.loops[l].dispatch.Some?
    requires var c := s.loops[l].dispatch.value.conn;
             && c < |s.entries| && s.entries[c].io < |s.loops|
             && Connection.KernelObeys(|s.entries[c].conn.Pending()|, answer)
  {
    var d := s.loops[l].dispatch.value;
    match d.stage
    case AtHangup =>
      var s1 := WithLoop(s, l, s.loops[l].(dispatch := Some(d.(stage := AtRead))));
      if d.revents.HangupOnly() then CloseNow(s1, l, d.conn) else s1
    case AtRead =>
      var s1 := WithLoop(s, l, s.loops[l].(dispatch := Some(d.(stage := AtWrite))));
      if d.revents.Readable() && eof then CloseNow(s1, l, d.conn) else s1
    case AtWrite =>
      // the guard is dropped after the callback; here both happen at once
      var s1 := WithLoop(s, l, s.loops[l].(dispatch := None));
      if d.revents.out
      then Updated(s1, l, d.conn, Connection.HandleWrite(s.entries[d.conn].conn, s.config, answer))
      else s1
  }

  function DestroyedEntry(e: Entry): Entry {
    e.(conn := Connection.Destroyed(e.conn), destroyed := e.destroyed + 1)
  }

  function ExecuteNow(s: Server, l: LoopId): Server
    requires l < |s.loops| && s.loops[l].running.Some?
    requires var c := s.loops[l].running.value.conn; c < |s.entries| && s.entries[c].io < |s.loops|
  {
    var loop := s.loops[l];
    var idle := WithLoop(s, l, loop.(running := None, erased := false));
    match loop.running.value
    case Establish(c) => EstablishNow(idle, c)
    case Remove(c) =>
      if !loop.erased then EraseNow(WithLoop(s, l, loop.(erased := true)), c)
      else Queued(idle, l, s.entries[c].io, Destroy(c))
    case Destroy(c) => WithEntry(idle, c, DestroyedEntry(s.entries[c]))
    case Notify(_) => idle
  }

  function Moved(s: Server, l: LoopId, step: LoopSpec.Step<Task>): Server
    requires l < |s.loops| && LoopSpec.Enabled(s.loops[l].q, step)
  {
    WithLoop(s, l, s.loops[l].(q := LoopSpec.Next(s.loops[l].q, step)))
  }

  ghost function After(s: Server, step: Step): Server
    requires Allowed(s, step)
  {
    match step
    case Accept(fd, io) => AcceptNow(s, fd, io)
    case Poll(l, reported) =>
      WithLoop(s, l, s.loops[l].(q := LoopSpec.Next(s.loops[l].q, PollReturns), active := reported))
    case Drain(l) => Moved(s, l, DrainWakeup)
    case Handle(l) =>
      var (c, revents) := s.loops[l].active[0];
      WithLoop(s, l, s.loops[l].(active := s.loops[l].active[1..], dispatch := Some(Dispatch(c, revents, AtHangup))))
    case Callback(l, eof, answer) => CallbackNow(s, l, eof, answer)
    case StartFunctors(l) => Moved(s, l, BeginCalling)
    case SwapFunctors(l) => Moved(s, l, Swap)
    case Take(l) =>
      var q := s.loops[l].q;
      WithLoop(s, l, s.loops[l].(q := LoopSpec.Next(q, TakeNext), running := Some(q.batch[0]), erased := false))
    case Execute(l) => ExecuteNow(s, l)
    case EndFunctors(l) => Moved(s, l, EndBatch)
    case RingBell(l) => Moved(s, l, WriteElsewhere)
    case User(l, c, op) => Updated(s, l, c, Connection.Step(s.entries[c].conn, s.config, op))
  }

  // A server of `n` loops before its first connection.
  function Start(config: Connection.Config, n: nat): Server {
    Server(config, seq(n, _ => Loop(Fresh(), [], None, None, false)), [], {})
  }

  ghost predicate Runs(s: Server, steps: seq<Step>)
    decreases steps
  {
    steps == [] || (Allowed(s, steps[0]) && Runs(After(s, steps[0]), steps[1..]))
  }

  ghost function Run(s: Server, steps: seq<Step>): Server
    requires Runs(s, steps)
    decreases steps
  {
    if steps == [] then s else Run(After(s, steps[0]), steps[1..])
  }

  // The one event pattern that closes a connection twice in one handleEvent: a hang-up
  // without EPOLLIN closes it, and the read callback, called all the same for EPOLLPRI (or
  // EPOLLRDHUP, which is never asked for), then reads end-of-file and closes it again.
  ghost predicate ClosesTwice(s: Server, step: Step)
    requires Allowed(s, step)
  {
    && step.Callback? && step.eof
    && var d := s.loops[step.l].dispatch.value;
    d.stage.AtRead? && d.revents.HangupOnly() && d.revents.Readable()
  }

  ghost predicate NeverClosesTwice(s: Server, steps: seq<Step>)
    requires Runs(s, steps)
    decreases steps
  {
    steps != [] ==> !ClosesTwice(s, steps[0]) && NeverClosesTwice(After(s, steps[0]), steps[1..])
  }
}
