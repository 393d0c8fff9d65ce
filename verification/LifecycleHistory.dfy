/**
 What the events of a run do to its connections, said event by event: which of them
 close a connection, which write, and that each reported channel is handled and each
 callback due to the user is queued, once and in order.
 */
module LifecycleHistory {
  import opened Bytes
  import Polling
  import LoopSpec
  import opened LifecycleSpec
  import opened Lifecycle
  import Connection = ConnectionSpec

  // ----- The history of one connection -----

  datatype Happening =
    | Establishes
    | Closes
    | Writes(answer: Connection.WriteAnswer)
    | Asks(op: Connection.Op)
    | Destroys

  // What a step does to connection `c`, by the event bits the kernel reported.
  ghost function Happens(s: Server, step: Step, c: ConnId): seq<Happening>
    requires Allowed(s, step)
  {
    match step
    case Accept(_, io) => if c == |s.entries| && io == BASE then [Establishes] else []
    case Callback(l, eof, answer) =>
      var d := s.loops[l].dispatch.value;
      var r := d.revents;
      if d.conn != c then []
      else if d.stage.AtHangup? then if r.hup && !r.input then [Closes] else []
      else if d.stage.AtRead? then if (r.input || r.pri || r.rdhup) && eof then [Closes] else []
      else if r.out then [Writes(answer)] else []
    case Execute(l) =>
      var t := s.loops[l].running.value;
      if t == Establish(c) then [Establishes] else if t == Destroy(c) then [Destroys] else []
    case User(_, d, op) => if d == c then [Asks(op)] else []
    case _ => []
  }

  function Apply(conn: Connection.Conn, cfg: Connection.Config, h: Happening): Connection.Conn {
    match h
    case Establishes => Connection.Established(conn)
    case Closes => Connection.HandleClose(conn)
    case Writes(answer) =>
      if Connection.KernelObeys(|conn.Pending()|, answer) then Connection.HandleWrite(conn, cfg, answer) else conn
    case Asks(op) =>
      if (op.OpSend? || op.OpShutdown?) && Connection.Possible(conn, op) then Connection.Step(conn, cfg, op) else conn
    case Destroys => Connection.Destroyed(conn)
  }

  function Replay(conn: Connection.Conn, cfg: Connection.Config, hs: seq<Happening>): Connection.Conn
    decreases hs
  {
    if hs == [] then conn else Replay(Apply(conn, cfg, hs[0]), cfg, hs[1..])
  }

  function ConnOf(s: Server, c: ConnId): Connection.Conn {
    if c < |s.entries| then s.entries[c].conn else Connection.Initial()
  }

  ghost function History(s: Server, steps: seq<Step>, c: ConnId): seq<Happening>
    requires Runs(s, steps)
    decreases steps
  {
    if steps == [] then [] else Happens(s, steps[0], c) + History(After(s, steps[0]), steps[1..], c)
  }

  lemma CallbackIsReplay(s: Server, step: Step, c: ConnId)
    requires Allowed(s, step) && step.Callback?
    ensures ConnOf(After(s, step), c) == Replay(ConnOf(s, c), s.config, Happens(s, step, c))
    ensures After(s, step).config == s.config
  {
    hide Connection.HandleWrite, Connection.Step, Connection.Possible, LoopSpec.Next, LoopSpec.Enabled;
  }

  lemma StepIsReplay(s: Server, step: Step, c: ConnId)
    requires Allowed(s, step)
    ensures ConnOf(After(s, step), c) == Replay(ConnOf(s, c), s.config, Happens(s, step, c))
    ensures After(s, step).config == s.config
  {
    hide Connection.HandleWrite, Connection.Step, Connection.Possible, LoopSpec.Next, LoopSpec.Enabled;
    if step.Callback? {
      hide CallbackNow;
      CallbackIsReplay(s, step, c);
    }
  }

  lemma {:induction false} ReplayAppend(conn: Connection.Conn, cfg: Connection.Config, a: seq<Happening>, b: seq<Happening>)
    ensures Replay(conn, cfg, a + b) == Replay(Replay(conn, cfg, a), cfg, b)
    decreases a
  {
    hide Apply;
    if a == [] {
      assert a + b == b;
    } else {
      assert (a + b)[1..] == a[1..] + b;
      ReplayAppend(Apply(conn, cfg, a[0]), cfg, a[1..], b);
    }
  }

  // At the end of every run each connection is what its own history has made of it, and nothing
  // else has touched it.
  lemma {:induction false} RunIsReplay(s: Server, steps: seq<Step>, c: ConnId)
    requires Runs(s, steps)
    ensures ConnOf(Run(s, steps), c) == Replay(ConnOf(s, c), s.config, History(s, steps, c))
    decreases steps
  {
    hide Allowed, After, Happens, ConnOf, Replay;
    if steps == [] {
      ReplayNothing(ConnOf(s, c), s.config);
    } else {
      StepIsReplay(s, steps[0], c);
      RunIsReplay(After(s, steps[0]), steps[1..], c);
      ReplayAppend(ConnOf(s, c), s.config, Happens(s, steps[0], c), History(After(s, steps[0]), steps[1..], c));
    }
  }

  lemma ReplayNothing(conn: Connection.Conn, cfg: Connection.Config)
    ensures Replay(conn, cfg, []) == conn
  {
  }

  // ----- Which events take a connection down -----

  // A live connection whose read callback meets end-of-file goes down, for any reason to read,
  // and its removal is on its way; on the base loop it is erased at once.
  lemma EofCloses(s: Server, l: LoopId, answer: Connection.WriteAnswer)
    requires Inv(s) && Allowed(s, Callback(l, true, answer))
    requires var d := s.loops[l].dispatch.value;
             && d.stage.AtRead? && (d.revents.input || d.revents.pri) && s.entries[d.conn].conn.Alive()
    ensures GoesDown(s, After(s, Callback(l, true, answer)), l, s.loops[l].dispatch.value.conn)
  {
    hide Connection.Inv, Connection.Initial, DescriptorsDiffer;
    assert LoopInv(s, l);
    var c := s.loops[l].dispatch.value.conn;
    assert Placed(s, c);
    AliveIsUp(s, c);
    var d := s.loops[l].dispatch.value;
    ClosedNow(s, WithLoop(s, l, s.loops[l].(dispatch := Some(d.(stage := AtWrite)))), l, c);
  }

  // So does one that is reported hung up with nothing to read.
  lemma HangupCloses(s: Server, l: LoopId, eof: bool, answer: Connection.WriteAnswer)
    requires Inv(s) && Allowed(s, Callback(l, eof, answer))
    requires var d := s.loops[l].dispatch.value;
             d.stage.AtHangup? && d.revents.hup && !d.revents.input
    ensures GoesDown(s, After(s, Callback(l, eof, answer)), l, s.loops[l].dispatch.value.conn)
  {
    hide Connection.Inv, Connection.Initial, DescriptorsDiffer;
    assert LoopInv(s, l);
    var c := s.loops[l].dispatch.value.conn;
    assert Placed(s, c);
    AliveIsUp(s, c);
    var d := s.loops[l].dispatch.value;
    ClosedNow(s, WithLoop(s, l, s.loops[l].(dispatch := Some(d.(stage := AtRead)))), l, c);
  }

  ghost predicate GoesDown(s: Server, r: Server, l: LoopId, c: ConnId) {
    && |s.loops| == |r.loops| > 0 && c < |s.entries| == |r.entries|
    && r.entries[c].conn.state.Disconnected? && r.entries[c].conn.reports == [true, false]
    && r.entries[c].conn.events == Polling.Mask(false, false)
    && if l == BASE then
         c !in r.connections && r.entries[c].erased == 1 && Count(r.loops[BASE], Destroy(c)) == 1
       else
         c in r.connections && r.entries[c].erased == 0 && Count(r.loops[BASE], Remove(c)) == 1
  }

  lemma ClosedNow(s: Server, m: Server, l: LoopId, c: ConnId)
    requires l < |s.loops| && c < |s.entries| && At(s, c, Up) && s.entries[c].io == l
    requires m == s.(loops := m.loops) && |m.loops| == |s.loops|
    requires forall k, u: Task :: 0 <= k < |s.loops| ==> Count(m.loops[k], u) == Count(s.loops[k], u)
    ensures GoesDown(s, CloseNow(m, l, c), l, c)
  {
    hide Connection.Inv, Count;
    var e := m.entries[c];
    var down := WithEntry(m, c, e.(conn := Connection.HandleClose(e.conn)));
    assert Count(s.loops[BASE], Remove(c)) == 0;
    assert l == BASE ==> Count(s.loops[BASE], Destroy(c)) == 0;
    if l == BASE {
      QueuedCounts(EraseNow(down, c), BASE, e.io, Destroy(c));
    } else {
      QueuedCounts(down, l, BASE, Remove(c));
    }
  }

  // ----- A DOWN is heard exactly of a connection that was closed -----

  // No functor that takes the connection out of the server exists.
  ghost predicate NoFarewell(s: Server, c: ConnId) {
    forall l :: 0 <= l < |s.loops| ==> Count(s.loops[l], Remove(c)) == 0 && Count(s.loops[l], Destroy(c)) == 0
  }

  lemma QueueKeepsNoFarewell(s: Server, from: LoopId, to: LoopId, t: Task, c: ConnId)
    requires to < |s.loops| && NoFarewell(s, c) && t != Remove(c) && t != Destroy(c)
    ensures NoFarewell(Queued(s, from, to, t), c)
  {
    hide Count;
    QueuedCounts(s, from, to, t);
  }

  // No functor of kind `u` appears on a loop that takes a functor out of its queue, swaps it,
  // or is handling something.
  lemma NoNewTask(loop: Loop, next: Loop, u: Task)
    requires Count(loop, u) == 0
    requires || (next.q.pending == loop.q.pending && next.q.batch == loop.q.batch
                 && (next.running == loop.running || next.running.None?))
             || (next.q == loop.q.Swapped() && next.running == loop.running)
             || (loop.q.batch != [] && next.q == loop.q.Taken() && next.running == Some(loop.q.batch[0]))
    ensures Count(next, u) == 0
  {
    if loop.q.batch != [] && next.q == loop.q.Taken() && next.running == Some(loop.q.batch[0]) {
      assert loop.q.batch[0] in multiset(loop.q.batch);
      assert loop.q.batch == [loop.q.batch[0]] + loop.q.batch[1..];
    }
  }

  lemma LoopKeepsNoFarewell(s: Server, l: LoopId, loop: Loop, c: ConnId)
    requires l < |s.loops| && NoFarewell(s, c)
    requires var was := s.loops[l];
             || (loop.q.pending == was.q.pending && loop.q.batch == was.q.batch
                 && (loop.running == was.running || loop.running.None?))
             || (loop.q == was.q.Swapped() && loop.running == was.running)
             || (was.q.batch != [] && loop.q == was.q.Taken() && loop.running == Some(was.q.batch[0]))
    ensures NoFarewell(WithLoop(s, l, loop), c)
  {
    hide Count;
    NoNewTask(s.loops[l], loop, Remove(c));
    NoNewTask(s.loops[l], loop, Destroy(c));
  }

  lemma CallbackFarewell(s: Server, l: LoopId, eof: bool, answer: Connection.WriteAnswer, c: ConnId)
    requires Allowed(s, Callback(l, eof, answer)) && NoFarewell(s, c)
    requires Closes !in Happens(s, Callback(l, eof, answer), c)
    ensures NoFarewell(After(s, Callback(l, eof, answer)), c)
  {
    hide Count, NoFarewell, Connection.HandleWrite;
    var d := s.loops[l].dispatch.value;
    var next := if d.stage.AtHangup? then Some(d.(stage := AtRead)) else if d.stage.AtRead? then Some(d.(stage := AtWrite)) else None;
    var s1 := WithLoop(s, l, s.loops[l].(dispatch := next));
    LoopKeepsNoFarewell(s, l, s.loops[l].(dispatch := next), c);
    var e := s.entries[d.conn];
    var closed := WithEntry(s1, d.conn, e.(conn := Connection.HandleClose(e.conn)));
    if d.stage.AtWrite? {
      var conn := Connection.HandleWrite(e.conn, s.config, answer);
      SameLoopsFarewell(s1, WithEntry(s1, d.conn, e.(conn := conn)), c);
      QueueKeepsNoFarewell(WithEntry(s1, d.conn, e.(conn := conn)), l, l, Notify(d.conn), c);
    } else if d.conn != c {
      SameLoopsFarewell(s1, closed, c);
      SameLoopsFarewell(s1, EraseNow(closed, d.conn), c);
      QueueKeepsNoFarewell(closed, l, BASE, Remove(d.conn), c);
      QueueKeepsNoFarewell(EraseNow(closed, d.conn), BASE, e.io, Destroy(d.conn), c);
    }
  }

  lemma SameLoopsFarewell(s: Server, r: Server, c: ConnId)
    requires r.loops == s.loops && NoFarewell(s, c)
    ensures NoFarewell(r, c)
  {
  }

  lemma ExecuteFarewell(s: Server, l: LoopId, c: ConnId)
    requires Allowed(s, Execute(l)) && NoFarewell(s, c)
    ensures NoFarewell(After(s, Execute(l)), c) && s.loops[l].running.value != Destroy(c)
  {
    var t := s.loops[l].running.value;
    assert Count(s.loops[l], t) > 0;
    hide Count, Connection.Established, Connection.Destroyed;
    var loop := s.loops[l];
    var idle := WithLoop(s, l, loop.(running := None, erased := false));
    LoopKeepsNoFarewell(s, l, loop.(running := None, erased := false), c);
    LoopKeepsNoFarewell(s, l, loop.(erased := true), c);
    match t {
      case Remove(d) => QueueKeepsNoFarewell(idle, l, s.entries[d].io, Destroy(d), c);
      case _ =>
    }
  }

  // Without a close, nothing takes the connection out.
  lemma StepFarewell(s: Server, step: Step, c: ConnId)
    requires Allowed(s, step) && NoFarewell(s, c) && Closes !in Happens(s, step, c)
    ensures NoFarewell(After(s, step), c) && Destroys !in Happens(s, step, c)
  {
    match step {
      case Callback(l, eof, answer) => CallbackFarewell(s, l, eof, answer, c);
      case Execute(l) => ExecuteFarewell(s, l, c);
      case _ => QuietFarewell(s, step, c);
    }
  }

  lemma QuietFarewell(s: Server, step: Step, c: ConnId)
    requires Allowed(s, step) && NoFarewell(s, c) && !step.Callback? && !step.Execute?
    ensures NoFarewell(After(s, step), c)
  {
    hide Count, NoFarewell, Connection.Step, Connection.Established, Connection.Possible;
    if step.Accept? {
      var e := Entry(step.fd, step.io, Connection.Initial(), 0, 0, 0);
      var s1 := s.(entries := s.entries + [e], connections := s.connections + {|s.entries|});
      SameLoopsFarewell(s, s1, c);
      SameLoopsFarewell(s, EstablishNow(s1, |s.entries|), c);
      QueueKeepsNoFarewell(s1, BASE, step.io, Establish(|s.entries|), c);
    } else if step.User? {
      var conn := Connection.Step(s.entries[step.c].conn, s.config, step.op);
      var s1 := WithEntry(s, step.c, s.entries[step.c].(conn := conn));
      SameLoopsFarewell(s, s1, c);
      QueueKeepsNoFarewell(s1, step.l, step.l, Notify(step.c), c);
    } else {
      LoopKeepsNoFarewell(s, step.l, After(s, step).loops[step.l], c);
    }
  }

  lemma DownsAppend(reports: seq<bool>, up: bool)
    ensures Downs(reports + [up]) == Downs(reports) + One(!up)
    decreases reports
  {
    if reports == [] {
      assert [up][1..] == [];
    } else {
      assert (reports + [up])[1..] == reports[1..] + [up];
      DownsAppend(reports[1..], up);
    }
  }

  lemma ApplyDowns(conn: Connection.Conn, cfg: Connection.Config, h: Happening)
    ensures h.Closes? ==> Downs(Apply(conn, cfg, h).reports) == Downs(conn.reports) + 1
    ensures !h.Closes? && !h.Destroys? ==> Downs(Apply(conn, cfg, h).reports) == Downs(conn.reports)
    ensures Downs(Apply(conn, cfg, h).reports) >= Downs(conn.reports)
  {
    DownsAppend(conn.reports, true);
    DownsAppend(conn.reports, false);
    if h.Asks? && (h.op.OpSend? || h.op.OpShutdown?) && Connection.Possible(conn, h.op) {
      UserKeepsPlace(conn, cfg, h.op);
    }
  }

  lemma {:induction false} ReplayDowns(conn: Connection.Conn, cfg: Connection.Config, hs: seq<Happening>)
    ensures Downs(Replay(conn, cfg, hs).reports) >= Downs(conn.reports)
    ensures Closes in hs ==> Downs(Replay(conn, cfg, hs).reports) > Downs(conn.reports)
    ensures Closes !in hs && Destroys !in hs ==> Downs(Replay(conn, cfg, hs).reports) == Downs(conn.reports)
    decreases hs
  {
    hide Apply;
    if hs != [] {
      ApplyDowns(conn, cfg, hs[0]);
      ReplayDowns(Apply(conn, cfg, hs[0]), cfg, hs[1..]);
    }
  }

  lemma {:induction false} UnclosedIsNotDestroyed(s: Server, steps: seq<Step>, c: ConnId)
    requires Runs(s, steps) && NoFarewell(s, c) && Closes !in History(s, steps, c)
    ensures Destroys !in History(s, steps, c)
    decreases steps
  {
    hide Allowed, After, Happens, NoFarewell;
    if steps != [] {
      StepFarewell(s, steps[0], c);
      UnclosedIsNotDestroyed(After(s, steps[0]), steps[1..], c);
    }
  }

  // In every run whatsoever: the user hears DOWN of a connection if and only if a handler of it
  // was called for a hang-up with nothing to read, or met end-of-file.
  lemma DownIffClosed(config: Connection.Config, n: nat, steps: seq<Step>, c: ConnId)
    requires n > 0 && Runs(Start(config, n), steps) && c < |Run(Start(config, n), steps).entries|
    ensures Downs(Run(Start(config, n), steps).entries[c].conn.reports) > 0
            <==> Closes in History(Start(config, n), steps, c)
  {
    hide Runs, Run, Replay;
    var s := Start(config, n);
    assert forall l :: 0 <= l < |s.loops| ==> s.loops[l] == Loop(LoopSpec.Fresh(), [], None, None, false);
    assert NoFarewell(s, c);
    RunIsReplay(s, steps, c);
    ReplayDowns(Connection.Initial(), config, History(s, steps, c));
    if Closes !in History(s, steps, c) {
      UnclosedIsNotDestroyed(s, steps, c);
    }
  }
}
