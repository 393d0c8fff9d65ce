/**
 What the loops of the server hand on: every channel a poll reports is handled, in order
 and through all three callbacks, before functors run, and every callback due to the
 user is queued once, on the connection's own loop.
 */
module LifecycleDelivery {
  import opened Bytes
  import LoopSpec
  import opened LifecycleSpec
  import opened Lifecycle
  import opened LifecycleHistory
  import Connection = ConnectionSpec

  // ----- Reported channels -----

  predicate NoPoll(steps: seq<Step>, l: LoopId) {
    forall i :: 0 <= i < |steps| ==> !(steps[i].Poll? && steps[i].l == l)
  }

  // The channels whose handlers loop `l` enters along a run, and the events they are given.
  ghost function Entered(s: Server, steps: seq<Step>, l: LoopId): seq<(ConnId, Revents)>
    requires l < |s.loops| && Runs(s, steps)
    decreases steps
  {
    if steps == [] then []
    else
      var r := After(s, steps[0]);
      KeepsLoops(s, steps[0]);
      var first := if steps[0] == Handle(l) && r.loops[l].dispatch.Some?
                   then [(r.loops[l].dispatch.value.conn, r.loops[l].dispatch.value.revents)] else [];
      first + Entered(r, steps[1..], l)
  }

  lemma KeepsLoops(s: Server, step: Step)
    requires Allowed(s, step)
    ensures |After(s, step).loops| == |s.loops|
  {
    hide LoopSpec.Next, LoopSpec.Enabled, Connection.HandleWrite, Connection.Step;
  }

  // Entering a handler takes the first of the channels that are left ...
  lemma HandleEnters(s: Server, l: LoopId)
    requires Allowed(s, Handle(l))
    ensures var r := After(s, Handle(l));
            && |r.loops| == |s.loops| && r.loops[l].dispatch.Some? && r.loops[l].dispatch.value.stage.AtHangup?
            && s.loops[l].active == [(r.loops[l].dispatch.value.conn, r.loops[l].dispatch.value.revents)] + r.loops[l].active
            && forall k :: 0 <= k < |s.loops| && k != l ==> r.loops[k].active == s.loops[k].active
  {
    var active := s.loops[l].active;
    assert active == [active[0]] + active[1..] && active[0] == (active[0].0, active[0].1);
  }

  lemma CallbackLeavesActive(s: Server, step: Step, l: LoopId)
    requires Allowed(s, step) && l < |s.loops| && step.Callback?
    ensures |After(s, step).loops| == |s.loops| && After(s, step).loops[l].active == s.loops[l].active
  {
    hide Connection.HandleWrite, Connection.HandleClose;
  }

  // ... and besides a poll nothing else changes them.
  lemma ActiveSame(s: Server, step: Step, l: LoopId)
    requires Allowed(s, step) && l < |s.loops| && !(step.Poll? && step.l == l) && step != Handle(l)
    ensures |After(s, step).loops| == |s.loops| && After(s, step).loops[l].active == s.loops[l].active
  {
    hide LoopSpec.Next, LoopSpec.Enabled, Connection.Step, Reportable, Distinct, Owned;
    if step.Callback? {
      hide CallbackNow;
      CallbackLeavesActive(s, step, l);
    }
  }

  lemma {:induction false} EnteredInOrder(s: Server, steps: seq<Step>, l: LoopId)
    requires l < |s.loops| && Runs(s, steps) && NoPoll(steps, l)
    ensures |Run(s, steps).loops| == |s.loops|
    ensures s.loops[l].active == Entered(s, steps, l) + Run(s, steps).loops[l].active
    decreases steps
  {
    hide Allowed, After;
    if steps != [] {
      if steps[0] == Handle(l) {
        HandleEnters(s, l);
      } else {
        ActiveSame(s, steps[0], l);
      }
      assert forall i :: 0 <= i < |steps[1..]| ==> steps[1..][i] == steps[i + 1];
      EnteredInOrder(After(s, steps[0]), steps[1..], l);
    }
  }

  // Between a poll and the functors of the same turn, the handlers entered are exactly those of
  // the channels reported, in the order reported.
  lemma AllReportedAreEntered(s: Server, l: LoopId, reported: seq<(ConnId, Revents)>, steps: seq<Step>)
    requires Allowed(s, Poll(l, reported)) && Runs(After(s, Poll(l, reported)), steps) && NoPoll(steps, l)
    requires Allowed(Run(After(s, Poll(l, reported)), steps), StartFunctors(l))
    ensures l < |After(s, Poll(l, reported)).loops|
    ensures Entered(After(s, Poll(l, reported)), steps, l) == reported
  {
    EnteredInOrder(After(s, Poll(l, reported)), steps, l);
  }

  // ----- One handler -----

  // What is next after a callback.
  lemma StageMoves(s: Server, l: LoopId, eof: bool, answer: Connection.WriteAnswer)
    requires Allowed(s, Callback(l, eof, answer))
    ensures |After(s, Callback(l, eof, answer)).loops| == |s.loops|
    ensures var d := s.loops[l].dispatch.value;
            After(s, Callback(l, eof, answer)).loops[l].dispatch
            == match d.stage
               case AtHangup => Some(d.(stage := AtRead))
               case AtRead => Some(d.(stage := AtWrite))
               case AtWrite => None
  {
    hide Connection.HandleWrite;
  }

  // A whole handleEvent: close callback, then read callback, then write callback, each if its
  // events are there.
  lemma WholeHandler(s: Server, first: Step, second: Step, third: Step)
    requires first.Callback? && second.Callback? && third.Callback? && first.l == second.l == third.l
    requires Allowed(s, first) && Allowed(After(s, first), second) && Allowed(After(After(s, first), second), third)
    requires s.loops[first.l].dispatch.value.stage.AtHangup?
    ensures var l := first.l; var d := s.loops[l].dispatch.value; var e := d.revents;
            var r := After(After(After(s, first), second), third);
            var conn0 := ConnOf(s, d.conn);
            var conn1 := if e.hup && !e.input then Connection.HandleClose(conn0) else conn0;
            var conn2 := if (e.input || e.pri || e.rdhup) && second.eof then Connection.HandleClose(conn1) else conn1;
            && |r.loops| == |s.loops| && r.loops[l].dispatch == None
            && Connection.KernelObeys(|conn2.Pending()|, third.answer)
            && ConnOf(r, d.conn) == if e.out then Connection.HandleWrite(conn2, s.config, third.answer) else conn2
  {
    hide After, Allowed, Connection.HandleWrite, Connection.HandleClose, Connection.KernelObeys;
    var s1 := After(s, first);
    CallbackConn(s, first.l, first.eof, first.answer);
    StageMoves(s, first.l, first.eof, first.answer);
    CallbackConn(s1, first.l, second.eof, second.answer);
    StageMoves(s1, first.l, second.eof, second.answer);
    var s2 := After(s1, second);
    CallbackConn(s2, first.l, third.eof, third.answer);
    StageMoves(s2, first.l, third.eof, third.answer);
  }

  lemma CallbackConn(s: Server, l: LoopId, eof: bool, answer: Connection.WriteAnswer)
    requires Allowed(s, Callback(l, eof, answer))
    ensures l < |s.loops| && s.loops[l].dispatch.Some? && After(s, Callback(l, eof, answer)).config == s.config
    ensures var d := s.loops[l].dispatch.value; var e := d.revents; var conn := ConnOf(s, d.conn);
            && Connection.KernelObeys(|conn.Pending()|, answer)
            && ConnOf(After(s, Callback(l, eof, answer)), d.conn)
               == match d.stage
                  case AtHangup => if e.hup && !e.input then Connection.HandleClose(conn) else conn
                  case AtRead => if (e.input || e.pri || e.rdhup) && eof then Connection.HandleClose(conn) else conn
                  case AtWrite => if e.out then Connection.HandleWrite(conn, s.config, answer) else conn
  {
    hide After, Connection.HandleWrite, Connection.HandleClose;
    StepIsReplay(s, Callback(l, eof, answer), s.loops[l].dispatch.value.conn);
  }

  // ----- Callbacks for the user -----

  // How often a functor has ever been queued on a loop.
  function Pushes(loop: Loop, t: Task): nat { multiset(loop.q.enqueued)[t] }

  // What a loop is handling is one of its own connections.
  ghost predicate OwnConn(s: Server, l: LoopId, c: ConnId) { c < |s.entries| && s.entries[c].io == l }

  ghost predicate HandlesOwn(s: Server, l: LoopId)
    requires l < |s.loops|
  {
    && (forall i :: 0 <= i < |s.loops[l].active| ==> OwnConn(s, l, s.loops[l].active[i].0))
    && (s.loops[l].dispatch.Some? ==> OwnConn(s, l, s.loops[l].dispatch.value.conn))
  }

  // Each callback a connection owes its user has been queued once, on its own loop.
  ghost predicate Delivered(s: Server) {
    && (forall l :: 0 <= l < |s.loops| ==> HandlesOwn(s, l))
    && (forall c :: 0 <= c < |s.entries| ==> s.entries[c].io < |s.loops|)
    && (forall c, l :: 0 <= l < |s.loops| ==> DeliveredOn(s, c, l))
  }

  ghost predicate DeliveredOn(s: Server, c: ConnId, l: LoopId)
    requires l < |s.loops|
  {
    Pushes(s.loops[l], Notify(c))
    == if c < |s.entries| && s.entries[c].io == l then |s.entries[c].conn.notes| else 0
  }

  // `r` is `s` with nothing new for any user, and handlers of the loops' own connections.
  ghost predicate NothingDue(s: Server, r: Server) {
    && |r.loops| == |s.loops| && |r.entries| >= |s.entries|
    && (forall c :: 0 <= c < |s.entries| ==> r.entries[c].io == s.entries[c].io && |r.entries[c].conn.notes| == |s.entries[c].conn.notes|)
    && (forall c :: |s.entries| <= c < |r.entries| ==> r.entries[c].io < |r.loops| && r.entries[c].conn.notes == [])
    && (forall c, l :: 0 <= l < |s.loops| ==> Pushes(r.loops[l], Notify(c)) == Pushes(s.loops[l], Notify(c)))
  }

  lemma NothingDueKeeps(s: Server, r: Server)
    requires Delivered(s) && NothingDue(s, r)
    requires forall l :: 0 <= l < |r.loops| ==> HandlesOwn(r, l)
    ensures Delivered(r)
  {
    hide Pushes, HandlesOwn;
    forall c, l | 0 <= l < |r.loops|
      ensures DeliveredOn(r, c, l)
    {
      assert DeliveredOn(s, c, l);
    }
  }

  lemma QueuedPushes(s: Server, from: LoopId, to: LoopId, t: Task)
    requires to < |s.loops|
    ensures var r := Queued(s, from, to, t);
            && |r.loops| == |s.loops|
            && forall l, u :: 0 <= l < |s.loops| ==> Pushes(r.loops[l], u) == Pushes(s.loops[l], u) + One(l == to && u == t)
  {
  }

  lemma QueuedHandlesOwn(s: Server, from: LoopId, to: LoopId, t: Task)
    requires to < |s.loops| && forall l :: 0 <= l < |s.loops| ==> HandlesOwn(s, l)
    ensures var r := Queued(s, from, to, t);
            |r.loops| == |s.loops| && forall l :: 0 <= l < |r.loops| ==> HandlesOwn(r, l)
  {
    var r := Queued(s, from, to, t);
    forall l | 0 <= l < |r.loops|
      ensures HandlesOwn(r, l)
    {
      assert HandlesOwn(s, l);
    }
  }

  // A connection that changes on its own loop, by at most one note.
  lemma UpdatedDelivers(s: Server, l: LoopId, c: ConnId, conn: Connection.Conn)
    requires Delivered(s) && l < |s.loops| && c < |s.entries| && s.entries[c].io == l
    requires conn.notes == s.entries[c].conn.notes || |conn.notes| == |s.entries[c].conn.notes| + 1
    ensures Delivered(Updated(s, l, c, conn))
  {
    hide Pushes;
    var s1 := WithEntry(s, c, s.entries[c].(conn := conn));
    forall k | 0 <= k < |s1.loops|
      ensures HandlesOwn(s1, k)
    {
      assert HandlesOwn(s, k);
    }
    var r := Updated(s, l, c, conn);
    QueuedPushes(s1, l, l, Notify(c));
    QueuedHandlesOwn(s1, l, l, Notify(c));
    forall d, k | 0 <= k < |r.loops|
      ensures DeliveredOn(r, d, k)
    {
      assert DeliveredOn(s, d, k);
    }
  }

  lemma OneNote(conn: Connection.Conn, cfg: Connection.Config, op: Connection.Op)
    requires (op.OpSend? || op.OpShutdown?) && Connection.Possible(conn, op)
    ensures var d := Connection.Step(conn, cfg, op);
            d.notes == conn.notes || |d.notes| == |conn.notes| + 1
  {
  }

  lemma OneNoteWritten(conn: Connection.Conn, cfg: Connection.Config, answer: Connection.WriteAnswer)
    requires Connection.KernelObeys(|conn.Pending()|, answer)
    ensures var d := Connection.HandleWrite(conn, cfg, answer);
            d.notes == conn.notes || |d.notes| == |conn.notes| + 1
  {
  }

  // A loop that goes on handling its own connections, with nothing queued.
  lemma LoopDelivers(s: Server, l: LoopId, loop: Loop)
    requires Delivered(s) && l < |s.loops| && loop.q.enqueued == s.loops[l].q.enqueued
    requires HandlesOwn(WithLoop(s, l, loop), l)
    ensures Delivered(WithLoop(s, l, loop))
  {
    var r := WithLoop(s, l, loop);
    forall k | 0 <= k < |r.loops|
      ensures HandlesOwn(r, k)
    {
      assert HandlesOwn(s, k);
    }
    NothingDueKeeps(s, r);
  }

  lemma CloseDelivers(s: Server, l: LoopId, c: ConnId)
    requires Delivered(s) && |s.loops| > 0 && c < |s.entries|
    ensures s.entries[c].io < |s.loops| && Delivered(CloseNow(s, l, c))
  {
    hide Pushes;
    var e := s.entries[c];
    var s1 := WithEntry(s, c, e.(conn := Connection.HandleClose(e.conn)));
    var s2 := EraseNow(s1, c);
    forall k | 0 <= k < |s1.loops|
      ensures HandlesOwn(s1, k) && HandlesOwn(s2, k)
    {
      assert HandlesOwn(s, k);
    }
    QueuedPushes(s1, l, BASE, Remove(c));
    QueuedPushes(s2, BASE, e.io, Destroy(c));
    QueuedHandlesOwn(s1, l, BASE, Remove(c));
    QueuedHandlesOwn(s2, BASE, e.io, Destroy(c));
    NothingDueKeeps(s, CloseNow(s, l, c));
  }

  lemma CallbackDelivers(s: Server, l: LoopId, eof: bool, answer: Connection.WriteAnswer)
    requires Delivered(s) && Allowed(s, Callback(l, eof, answer))
    ensures Delivered(After(s, Callback(l, eof, answer)))
  {
    hide Delivered, Connection.HandleWrite, Connection.HandleClose;
    assert HandlesOwn(s, l) by { OwnHandled(s, l); }
    var d := s.loops[l].dispatch.value;
    var next := if d.stage.AtHangup? then Some(d.(stage := AtRead)) else if d.stage.AtRead? then Some(d.(stage := AtWrite)) else None;
    var loop := s.loops[l].(dispatch := next);
    LoopDelivers(s, l, loop);
    var s1 := WithLoop(s, l, loop);
    if d.stage.AtWrite? {
      if d.revents.out {
        OneNoteWritten(s.entries[d.conn].conn, s.config, answer);
        UpdatedDelivers(s1, l, d.conn, Connection.HandleWrite(s.entries[d.conn].conn, s.config, answer));
      }
    } else {
      CloseDelivers(s1, l, d.conn);
    }
  }

  lemma OwnHandled(s: Server, l: LoopId)
    requires Delivered(s) && l < |s.loops|
    ensures HandlesOwn(s, l)
  {
  }

  // An entry, and the map, may change as long as nothing is due in it.
  lemma EntryDelivers(s: Server, c: ConnId, e: Entry, connections: set<ConnId>)
    requires Delivered(s) && c < |s.entries| && e.io == s.entries[c].io
    requires |e.conn.notes| == |s.entries[c].conn.notes|
    ensures Delivered(WithEntry(s, c, e).(connections := connections))
  {
    hide Pushes;
    var r := WithEntry(s, c, e).(connections := connections);
    forall k | 0 <= k < |r.loops|
      ensures HandlesOwn(r, k)
    {
      assert HandlesOwn(s, k);
    }
    NothingDueKeeps(s, r);
  }

  lemma TaskQueuedDelivers(s: Server, from: LoopId, to: LoopId, t: Task)
    requires Delivered(s) && to < |s.loops| && !t.Notify?
    ensures Delivered(Queued(s, from, to, t))
  {
    hide Pushes;
    QueuedPushes(s, from, to, t);
    QueuedHandlesOwn(s, from, to, t);
    NothingDueKeeps(s, Queued(s, from, to, t));
  }

  lemma NotesStay(conn: Connection.Conn)
    ensures Connection.Established(conn).notes == conn.notes && Connection.Destroyed(conn).notes == conn.notes
  {
  }

  lemma ExecuteDelivers(s: Server, l: LoopId)
    requires Delivered(s) && Allowed(s, Execute(l))
    ensures Delivered(After(s, Execute(l)))
  {
    OwnHandled(s, l);
    hide Delivered, Connection.Established, Connection.Destroyed;
    var loop := s.loops[l];
    var t := loop.running.value;
    var idle := WithLoop(s, l, loop.(running := None, erased := false));
    var half := WithLoop(s, l, loop.(erased := true));
    LoopDelivers(s, l, loop.(running := None, erased := false));
    LoopDelivers(s, l, loop.(erased := true));
    var e := s.entries[t.conn];
    NotesStay(e.conn);
    match t {
      case Establish(c) =>
        EntryDelivers(idle, c, e.(conn := Connection.Established(e.conn), established := e.established + 1), s.connections);
      case Remove(c) =>
        if loop.erased {
          TaskQueuedDelivers(idle, l, e.io, Destroy(c));
        } else {
          EntryDelivers(half, c, e.(erased := e.erased + 1), s.connections - {c});
        }
      case Destroy(c) => EntryDelivers(idle, c, DestroyedEntry(e), s.connections);
      case Notify(_) =>
    }
  }

  lemma AcceptDelivers(s: Server, fd: int, io: LoopId)
    requires Delivered(s) && Allowed(s, Accept(fd, io))
    ensures Delivered(After(s, Accept(fd, io)))
  {
    hide Pushes;
    var c := |s.entries|;
    var s1 := s.(entries := s.entries + [Entry(fd, io, Connection.Initial(), 0, 0, 0)], connections := s.connections + {c});
    var s2 := EstablishNow(s1, c);
    forall k | 0 <= k < |s.loops|
      ensures HandlesOwn(s1, k) && HandlesOwn(s2, k)
    {
      assert HandlesOwn(s, k);
    }
    QueuedPushes(s1, BASE, io, Establish(c));
    QueuedHandlesOwn(s1, BASE, io, Establish(c));
    NothingDueKeeps(s, After(s, Accept(fd, io)));
  }

  lemma StepDelivers(s: Server, step: Step)
    requires Delivered(s) && Allowed(s, step)
    ensures Delivered(After(s, step))
  {
    hide Delivered, Pushes, Connection.Step, Connection.Possible;
    match step {
      case Accept(fd, io) => AcceptDelivers(s, fd, io);
      case Callback(l, eof, answer) => CallbackDelivers(s, l, eof, answer);
      case Execute(l) => ExecuteDelivers(s, l);
      case User(l, c, op) =>
        OneNote(s.entries[c].conn, s.config, op);
        UpdatedDelivers(s, l, c, Connection.Step(s.entries[c].conn, s.config, op));
      case _ =>
        OwnHandled(s, LoopOf(step));
        LoopDelivers(s, LoopOf(step), After(s, step).loops[LoopOf(step)]);
    }
  }

  lemma {:induction false} RunDelivers(s: Server, steps: seq<Step>)
    requires Delivered(s) && Runs(s, steps)
    ensures Delivered(Run(s, steps))
    decreases steps
  {
    hide Delivered, Allowed, After;
    if steps != [] {
      StepDelivers(s, steps[0]);
      RunDelivers(After(s, steps[0]), steps[1..]);
    }
  }

  // In every run whatsoever, each write-complete and high-water callback has been queued exactly
  // once, on the loop of its connection and on no other.
  lemma CallbacksAreQueued(config: Connection.Config, n: nat, steps: seq<Step>, c: ConnId, l: LoopId)
    requires Runs(Start(config, n), steps) && l < n
    ensures var r := Run(Start(config, n), steps);
            && l < |r.loops|
            && multiset(r.loops[l].q.enqueued)[Notify(c)]
               == if c < |r.entries| && r.entries[c].io == l then |r.entries[c].conn.notes| else 0
  {
    var s := Start(config, n);
    assert forall k :: 0 <= k < |s.loops| ==> s.loops[k] == Loop(LoopSpec.Fresh(), [], None, None, false);
    RunDelivers(s, steps);
    LoopsStay(s, steps);
    assert DeliveredOn(Run(s, steps), c, l);
  }

  lemma {:induction false} LoopsStay(s: Server, steps: seq<Step>)
    requires Runs(s, steps)
    ensures |Run(s, steps).loops| == |s.loops|
    decreases steps
  {
    hide Allowed, After;
    if steps != [] {
      KeepsLoops(s, steps[0]);
      LoopsStay(After(s, steps[0]), steps[1..]);
    }
  }
}
