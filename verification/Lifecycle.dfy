/**
 Safety of the hand-over machine of LifecycleSpec in every interleaving.
 */
module Lifecycle {
  import opened Bytes
  import opened Polling
  import LoopSpec
  import opened LifecycleSpec
  import Connection = ConnectionSpec

  // Where a connection is between accept and destruction.
  datatype Place = Opening | Up | Removing | Destroying | Gone

  // How many functors of each kind exist for connection `c`, and on which loops.
  ghost predicate Tokens(s: Server, c: ConnId, io: LoopId, establishing: nat, removing: nat, destroying: nat) {
    forall l :: 0 <= l < |s.loops| ==>
      && Count(s.loops[l], Establish(c)) == (if l == io then establishing else 0)
      && Count(s.loops[l], Remove(c)) == (if l == BASE then removing else 0)
      && Count(s.loops[l], Destroy(c)) == (if l == io then destroying else 0)
  }

  // removeConnectionInLoop(c) is between its erase and its queueInLoop.
  ghost predicate HalfRemoved(s: Server, c: ConnId)
    requires |s.loops| > 0
  {
    s.loops[BASE].running == Some(Remove(c)) && s.loops[BASE].erased
  }

  ghost predicate At(s: Server, c: ConnId, p: Place)
    requires |s.loops| > 0 && c < |s.entries|
  {
    var e := s.entries[c];
    && e.io < |s.loops|
    && match p
       case Opening =>
         && (e.established, e.erased, e.destroyed) == (0, 0, 0) && c in s.connections
         && e.conn == Connection.Initial() && Tokens(s, c, e.io, 1, 0, 0)
       case Up =>
         && (e.established, e.erased, e.destroyed) == (1, 0, 0) && c in s.connections
         && Connection.Inv(e.conn) && e.conn.Alive() && e.conn.reports == [true] && Tokens(s, c, e.io, 0, 0, 0)
       case Removing =>
         && (e.established, e.erased, e.destroyed) == (1, if HalfRemoved(s, c) then 1 else 0, 0)
         && (c in s.connections <==> !HalfRemoved(s, c))
         && Closed(e.conn) && e.conn.index.Deleted? && Tokens(s, c, e.io, 0, 1, 0)
       case Destroying =>
         && (e.established, e.erased, e.destroyed) == (1, 1, 0) && c !in s.connections
         && Closed(e.conn) && e.conn.index.Deleted? && Tokens(s, c, e.io, 0, 0, 1)
       case Gone =>
         && (e.established, e.erased, e.destroyed) == (1, 1, 1) && c !in s.connections
         && Closed(e.conn) && e.conn.index.New? && Tokens(s, c, e.io, 0, 0, 0)
  }

  ghost predicate Closed(conn: Connection.Conn) {
    Connection.Inv(conn) && conn.state.Disconnected? && conn.reports == [true, false]
  }

  ghost predicate Placed(s: Server, c: ConnId)
    requires |s.loops| > 0 && c < |s.entries|
  {
    exists p :: At(s, c, p)
  }

  ghost predicate LoopInv(s: Server, l: LoopId)
    requires l < |s.loops|
  {
    var loop := s.loops[l];
    && LoopSpec.Inv(loop.q) && !loop.q.owes
    && (loop.running.Some? ==> loop.q.phase.Running?)
    && (loop.erased ==> loop.running.Some? && loop.running.value.Remove?)
    && (forall t :: Count(loop, t) > 0 ==> t.conn < |s.entries|)
    && (loop.active != [] || loop.dispatch.Some? ==> loop.q.phase.Handling?)
    && Distinct(loop.active)
    && (forall i :: 0 <= i < |loop.active| ==> HandlerReady(s, l, loop.active[i].0))
    && (loop.dispatch.Some? ==> DispatchInv(s, l, loop.dispatch.value))
  }

  // A reported channel not yet handled: its connection is up.
  ghost predicate HandlerReady(s: Server, l: LoopId, c: ConnId) {
    c < |s.entries| && s.entries[c].io == l && s.entries[c].established == 1 && s.entries[c].conn.Alive()
  }

  ghost predicate DispatchInv(s: Server, l: LoopId, d: Dispatch)
    requires l < |s.loops|
  {
    && d.conn < |s.entries| && s.entries[d.conn].io == l && s.entries[d.conn].established == 1
    && (forall i :: 0 <= i < |s.loops[l].active| ==> s.loops[l].active[i].0 != d.conn)
    && match d.stage
       case AtHangup => s.entries[d.conn].conn.Alive()
       case AtRead => s.entries[d.conn].conn.Alive() <==> !d.revents.HangupOnly()
       case AtWrite => true
  }

  // Connections that exist at the same time have different descriptors.
  ghost predicate DescriptorsDiffer(s: Server) {
    forall c, d :: 0 <= c < |s.entries| && 0 <= d < |s.entries| && c != d && Owned(s, c) && Owned(s, d)
      ==> s.entries[c].fd != s.entries[d].fd
  }

  ghost predicate Inv(s: Server) {
    && |s.loops| > 0
    && (forall c :: 0 <= c < |s.entries| ==> Placed(s, c))
    && (forall l :: 0 <= l < |s.loops| ==> LoopInv(s, l))
    && (forall c :: c in s.connections ==> c < |s.entries|)
    && DescriptorsDiffer(s)
  }

  // ----- What a change to one loop's queue does to the functor counts -----

  function One(b: bool): nat { if b then 1 else 0 }

  lemma CountPushed(loop: Loop, q: LoopSpec.LoopState<Task>, t: Task, u: Task)
    requires q.pending == loop.q.pending + [t] && q.batch == loop.q.batch
    ensures Count(loop.(q := q), u) == Count(loop, u) + One(u == t)
  {
  }

  lemma CountSwapped(loop: Loop, u: Task)
    requires loop.q.batch == []
    ensures Count(loop.(q := loop.q.Swapped()), u) == Count(loop, u)
  {
  }

  lemma CountTaken(loop: Loop, u: Task)
    requires loop.q.batch != [] && loop.running.None?
    ensures Count(loop.(q := loop.q.Taken(), running := Some(loop.q.batch[0]), erased := false), u) == Count(loop, u)
  {
    assert loop.q.batch == [loop.q.batch[0]] + loop.q.batch[1..];
  }

  // ----- Frames -----

  // Nothing that matters to connection `c` has changed.
  ghost predicate Untouched(s: Server, r: Server, c: ConnId)
    requires |s.loops| > 0 && |r.loops| == |s.loops| && c < |s.entries| && c < |r.entries|
  {
    && r.entries[c] == s.entries[c] && (c in r.connections <==> c in s.connections)
    && (HalfRemoved(r, c) <==> HalfRemoved(s, c))
    && SameTokens(s, r, c)
  }

  ghost predicate SameTokens(s: Server, r: Server, c: ConnId)
    requires |r.loops| == |s.loops|
  {
    forall l :: 0 <= l < |s.loops| ==>
      && Count(r.loops[l], Establish(c)) == Count(s.loops[l], Establish(c))
      && Count(r.loops[l], Remove(c)) == Count(s.loops[l], Remove(c))
      && Count(r.loops[l], Destroy(c)) == Count(s.loops[l], Destroy(c))
  }

  lemma PlaceKept(s: Server, r: Server, c: ConnId, p: Place)
    requires |s.loops| > 0 && |r.loops| == |s.loops| && c < |s.entries| && c < |r.entries|
    requires Untouched(s, r, c) && At(s, c, p)
    ensures At(r, c, p)
  {
    assert forall l :: 0 <= l < |s.loops| ==> Count(r.loops[l], Establish(c)) == Count(s.loops[l], Establish(c));
  }

  // Handlers on loop `l` cannot tell `r` from `s`.
  ghost predicate SameForHandlers(s: Server, r: Server, c: ConnId)
    requires c < |s.entries| && c < |r.entries|
  {
    && r.entries[c].io == s.entries[c].io && r.entries[c].established == s.entries[c].established
    && (r.entries[c].conn.Alive() <==> s.entries[c].conn.Alive())
  }

  // A loop that has not changed, in a server where at most connection `c` has - and `c` is
  // not one this loop can be handling, or looks the same to its handlers.
  lemma LoopKept(s: Server, r: Server, l: LoopId, c: ConnId)
    requires |r.loops| == |s.loops| && l < |s.loops| && LoopInv(s, l) && r.loops[l] == s.loops[l]
    requires |s.entries| <= |r.entries|
    requires forall d :: 0 <= d < |s.entries| && d != c ==> r.entries[d] == s.entries[d]
    requires c < |s.entries| ==>
               s.entries[c].io != l || s.entries[c].established == 0 || SameForHandlers(s, r, c)
    ensures LoopInv(r, l)
  {
    var loop := s.loops[l];
    forall i | 0 <= i < |loop.active|
      ensures HandlerReady(r, l, loop.active[i].0)
    {
      assert HandlerReady(s, l, loop.active[i].0);
    }
  }

  lemma QueuedCounts(s: Server, from: LoopId, to: LoopId, t: Task)
    requires to < |s.loops|
    ensures var r := Queued(s, from, to, t);
            forall l, u :: 0 <= l < |s.loops| ==>
              Count(r.loops[l], u) == Count(s.loops[l], u) + One(l == to && u == t)
  {
    var r := Queued(s, from, to, t);
    forall l, u | 0 <= l < |s.loops|
      ensures Count(r.loops[l], u) == Count(s.loops[l], u) + One(l == to && u == t)
    {
      if l == to {
        CountPushed(s.loops[to], r.loops[to].q, t, u);
      }
    }
  }

  lemma QueuedKeepsLoop(s: Server, from: LoopId, to: LoopId, t: Task)
    requires to < |s.loops| && LoopInv(s, to) && t.conn < |s.entries|
    requires from == to ==> s.loops[to].q.phase.Handling? || s.loops[to].q.phase.Running?
    ensures LoopInv(Queued(s, from, to, t), to)
  {
    var r := Queued(s, from, to, t);
    QueuedCounts(s, from, to, t);
    var q := s.loops[to].q;
    if from == to {
      LoopSpec.NextKeeps(q, LoopSpec.PushHere(t));
    } else {
      LoopSpec.NextKeeps(q, LoopSpec.PushElsewhere(t));
    }
    assert forall u :: Count(r.loops[to], u) > 0 ==> u == t || Count(s.loops[to], u) > 0;
    forall i | 0 <= i < |r.loops[to].active|
      ensures HandlerReady(r, to, r.loops[to].active[i].0)
    {
      assert HandlerReady(s, to, s.loops[to].active[i].0);
    }
  }

  // ----- Putting an invariant back together -----

  lemma Rebuilt(s: Server, r: Server, c: ConnId)
    requires Inv(s) && |r.loops| == |s.loops| && |r.entries| == |s.entries| && c < |s.entries|
    requires forall d :: 0 <= d < |s.entries| && d != c ==> Untouched(s, r, d)
    requires Placed(r, c) && r.entries[c].fd == s.entries[c].fd
    requires forall l :: 0 <= l < |s.loops| ==> LoopInv(r, l)
    requires r.connections <= s.connections
    requires forall d :: 0 <= d < |s.entries| && Owned(r, d) ==> Owned(s, d)
    ensures Inv(r)
  {
    forall d | 0 <= d < |r.entries|
      ensures Placed(r, d) && r.entries[d].fd == s.entries[d].fd
    {
      if d != c {
        assert Untouched(s, r, d);
        assert Placed(s, d);
        var p :| At(s, d, p);
        PlaceKept(s, r, d, p);
      }
    }
  }

  // ----- Steps that only move one loop along -----

  lemma QuietKeeps(s: Server, l: LoopId, loop: Loop)
    requires Inv(s) && l < |s.loops|
    requires var r := WithLoop(s, l, loop);
             && LoopInv(r, l)
             && (forall c :: HalfRemoved(r, c) <==> HalfRemoved(s, c))
    requires forall u: Task :: !u.Notify? ==> Count(loop, u) == Count(s.loops[l], u)
    requires forall u: Task :: Count(loop, u) <= Count(s.loops[l], u)
    requires loop.dispatch.Some? ==> Owned(s, loop.dispatch.value.conn)
    ensures Inv(WithLoop(s, l, loop))
  {
    var r := WithLoop(s, l, loop);
    forall d | 0 <= d < |s.entries|
      ensures Placed(r, d)
      ensures Owned(r, d) ==> Owned(s, d)
    {
      assert Placed(s, d);
      var p :| At(s, d, p);
      PlaceKept(s, r, d, p);
      if Owned(r, d) && d !in r.connections {
        var k :| 0 <= k < |r.loops| && Holds(r.loops[k], d);
        assert k != l ==> Holds(s.loops[k], d);
        assert Count(loop, Establish(d)) <= Count(s.loops[l], Establish(d));
        assert Count(loop, Remove(d)) <= Count(s.loops[l], Remove(d));
        assert Count(loop, Destroy(d)) <= Count(s.loops[l], Destroy(d));
        assert Count(loop, Notify(d)) <= Count(s.loops[l], Notify(d));
        if k == l && !(loop.dispatch.Some? && loop.dispatch.value.conn == d) {
          assert Holds(s.loops[l], d);
        }
      }
    }
    forall k | 0 <= k < |s.loops|
      ensures LoopInv(r, k)
    {
      if k != l {
        assert LoopInv(s, k);
        LoopKept(s, r, k, 0);
      }
    }
  }

  lemma PollKeeps(s: Server, l: LoopId, reported: seq<(ConnId, Revents)>)
    requires Inv(s) && Allowed(s, Poll(l, reported))
    ensures Inv(After(s, Poll(l, reported)))
  {
    assert LoopInv(s, l);
    var loop := s.loops[l];
    LoopSpec.NextKeeps(loop.q, LoopSpec.PollReturns);
    var moved := loop.(q := LoopSpec.Next(loop.q, LoopSpec.PollReturns), active := reported);
    var r := WithLoop(s, l, moved);
    assert forall u :: Count(moved, u) == Count(loop, u);
    forall i | 0 <= i < |reported|
      ensures HandlerReady(r, l, reported[i].0)
    {
      var c := reported[i].0;
      assert Reportable(s, l, c, reported[i].1);
      assert Placed(s, c);
      var p :| At(s, c, p);
    }
    QuietKeeps(s, l, moved);
  }

  lemma HandleKeeps(s: Server, l: LoopId)
    requires Inv(s) && Allowed(s, Handle(l))
    ensures Inv(After(s, Handle(l)))
  {
    assert LoopInv(s, l);
    var loop := s.loops[l];
    var (c, revents) := loop.active[0];
    assert HandlerReady(s, l, loop.active[0].0);
    var entered := loop.(active := loop.active[1..], dispatch := Some(Dispatch(c, revents, AtHangup)));
    var r := WithLoop(s, l, entered);
    assert forall u :: Count(entered, u) == Count(loop, u);
    forall i | 0 <= i < |entered.active|
      ensures HandlerReady(r, l, entered.active[i].0) && entered.active[i].0 != c
    {
      assert entered.active[i] == loop.active[i + 1];
      assert HandlerReady(s, l, loop.active[i + 1].0);
    }
    assert Placed(s, c);
    var p :| At(s, c, p);
    assert p == Up;
    QuietKeeps(s, l, entered);
  }

  // Drain, StartFunctors, SwapFunctors, EndFunctors and RingBell: the queue moves, nothing else.
  lemma MovedKeeps(s: Server, l: LoopId, step: LoopSpec.Step<Task>)
    requires Inv(s) && l < |s.loops| && LoopSpec.Enabled(s.loops[l].q, step)
    requires step.DrainWakeup? || step.BeginCalling? || step.Swap? || step.EndBatch? || step.WriteElsewhere?
    requires step.BeginCalling? ==> s.loops[l].dispatch.None? && s.loops[l].active == []
    requires step.EndBatch? ==> s.loops[l].running.None?
    ensures Inv(Moved(s, l, step))
  {
    assert LoopInv(s, l);
    var loop := s.loops[l];
    LoopSpec.NextKeeps(loop.q, step);
    var moved := loop.(q := LoopSpec.Next(loop.q, step));
    var r := WithLoop(s, l, moved);
    forall u
      ensures Count(moved, u) == Count(loop, u)
    {
      if step.Swap? {
        CountSwapped(loop, u);
      }
    }
    forall i | 0 <= i < |loop.active|
      ensures HandlerReady(r, l, loop.active[i].0)
    {
      assert HandlerReady(s, l, loop.active[i].0);
    }
    if loop.dispatch.Some? {
      assert Holds(loop, loop.dispatch.value.conn);
    }
    QuietKeeps(s, l, moved);
  }

  lemma TakeKeeps(s: Server, l: LoopId)
    requires Inv(s) && Allowed(s, Take(l))
    ensures Inv(After(s, Take(l)))
  {
    assert LoopInv(s, l);
    var loop := s.loops[l];
    LoopSpec.NextKeeps(loop.q, LoopSpec.TakeNext);
    var taken := loop.(q := loop.q.Taken(), running := Some(loop.q.batch[0]), erased := false);
    forall u
      ensures Count(taken, u) == Count(loop, u)
    {
      CountTaken(loop, u);
    }
    QuietKeeps(s, l, taken);
  }

  // ----- Steps that change one connection -----

  // Counts in `r`: those of `s`, less the functor `done` that has just finished on loop `l`.
  lemma FinishedCounts(s: Server, l: LoopId)
    requires l < |s.loops| && s.loops[l].running.Some?
    ensures var r := WithLoop(s, l, s.loops[l].(running := None, erased := false));
            forall k, u :: 0 <= k < |s.loops| ==>
              Count(r.loops[k], u) + One(k == l && Some(u) == s.loops[l].running) == Count(s.loops[k], u)
  {
  }

  // Sends and shutdowns leave a connection that is not up alone, and keep one up that is.
  lemma UserKeepsPlace(conn: Connection.Conn, cfg: Connection.Config, op: Connection.Op)
    requires (op.OpSend? || op.OpShutdown?) && Connection.Possible(conn, op)
    ensures var d := Connection.Step(conn, cfg, op);
            && d.reports == conn.reports
            && (!conn.Alive() ==> d == conn)
            && (conn.Alive() && Connection.Inv(conn) ==> d.Alive() && Connection.Inv(d))
  {
    if Connection.Inv(conn) {
      Connection.StepKeeps(conn, cfg, op);
    }
  }

  lemma WriteKeepsPlace(conn: Connection.Conn, cfg: Connection.Config, answer: Connection.WriteAnswer)
    requires Connection.Inv(conn) && Connection.KernelObeys(|conn.Pending()|, answer)
    ensures var d := Connection.HandleWrite(conn, cfg, answer);
            && d.reports == conn.reports
            && (!conn.Alive() ==> d == conn)
            && (conn.Alive() ==> d.Alive() && Connection.Inv(d))
  {
    Connection.WriteEventKeeps(conn, cfg, answer);
  }

  // Only connection `c`, which somebody owns already, can have gained an owner.
  lemma OwnersShrink(s: Server, r: Server, c: ConnId)
    requires |r.loops| == |s.loops| && Owned(s, c) && r.connections <= s.connections
    requires forall l, u: Task :: 0 <= l < |s.loops| && u.conn != c ==> Count(r.loops[l], u) <= Count(s.loops[l], u)
    requires forall l :: 0 <= l < |s.loops| && r.loops[l].dispatch.Some? ==>
               r.loops[l].dispatch.value.conn == c
               || (s.loops[l].dispatch.Some? && s.loops[l].dispatch.value.conn == r.loops[l].dispatch.value.conn)
    ensures forall d :: Owned(r, d) ==> Owned(s, d)
  {
    forall d | Owned(r, d)
      ensures Owned(s, d)
    {
      if d != c && d !in s.connections {
        var k :| 0 <= k < |r.loops| && Holds(r.loops[k], d);
        assert Count(r.loops[k], Establish(d)) <= Count(s.loops[k], Establish(d));
        assert Count(r.loops[k], Remove(d)) <= Count(s.loops[k], Remove(d));
        assert Count(r.loops[k], Destroy(d)) <= Count(s.loops[k], Destroy(d));
        assert Count(r.loops[k], Notify(d)) <= Count(s.loops[k], Notify(d));
        assert Holds(s.loops[k], d);
      }
    }
  }

  // Queueing a functor on a loop, while every loop is in order, leaves every loop in order.
  lemma QueuedKeepsLoops(s: Server, from: LoopId, to: LoopId, t: Task)
    requires to < |s.loops| && t.conn < |s.entries|
    requires forall l :: 0 <= l < |s.loops| ==> LoopInv(s, l)
    requires from == to ==> s.loops[to].q.phase.Handling? || s.loops[to].q.phase.Running?
    ensures var r := Queued(s, from, to, t); forall l :: 0 <= l < |s.loops| ==> LoopInv(r, l)
  {
    var r := Queued(s, from, to, t);
    QueuedKeepsLoop(s, from, to, t);
    forall l | 0 <= l < |s.loops|
      ensures LoopInv(r, l)
    {
      if l != to {
        assert LoopInv(s, l);
        LoopKept(s, r, l, t.conn);
      }
    }
  }

  // Changing a connection in a way its handlers cannot see leaves every loop in order.
  lemma EntryKeepsLoops(s: Server, c: ConnId, e: Entry)
    requires c < |s.entries|
    requires forall l :: 0 <= l < |s.loops| ==> LoopInv(s, l)
    requires SameForHandlers(s, WithEntry(s, c, e), c)
    ensures var r := WithEntry(s, c, e); forall l :: 0 <= l < |s.loops| ==> LoopInv(r, l)
  {
    var r := WithEntry(s, c, e);
    forall l | 0 <= l < |s.loops|
      ensures LoopInv(r, l)
    {
      assert LoopInv(s, l);
      LoopKept(s, r, l, c);
    }
  }

  // Only the Conn of `c` has changed, and only in ways its place allows.
  lemma UpdatedPlace(s: Server, r: Server, c: ConnId)
    requires |s.loops| > 0 && |r.loops| == |s.loops| && c < |s.entries| && c < |r.entries| && Placed(s, c)
    requires SameTokens(s, r, c) && r.connections == s.connections && (HalfRemoved(r, c) <==> HalfRemoved(s, c))
    requires var was := s.entries[c].conn; var conn := r.entries[c].conn;
             && r.entries[c] == s.entries[c].(conn := conn)
             && conn.reports == was.reports
             && (!was.Alive() ==> conn == was)
             && (was.Alive() ==> conn.Alive() && Connection.Inv(conn))
    ensures Placed(r, c)
  {
    var p :| At(s, c, p);
    assert At(r, c, p);
  }

  // From `s` to `r`, connection `c` has become `conn`, and functors came or went for `c` only
  // as far as no invariant counts them.
  ghost predicate OnlyConnChanged(s: Server, r: Server, c: ConnId, conn: Connection.Conn)
    requires c < |s.entries|
  {
    && |r.loops| == |s.loops| && r.connections == s.connections
    && r.entries == s.entries[c := s.entries[c].(conn := conn)]
    && (forall k :: 0 <= k < |s.loops| ==> LoopInv(r, k))
    && (forall k :: 0 <= k < |s.loops| ==>
          && (r.loops[k].dispatch == s.loops[k].dispatch || r.loops[k].dispatch.None?)
          && r.loops[k].running == s.loops[k].running && r.loops[k].erased == s.loops[k].erased)
    && (forall k, u: Task :: 0 <= k < |s.loops| && u != Notify(c) ==> Count(r.loops[k], u) == Count(s.loops[k], u))
  }

  lemma UpdatedShape(s: Server, l: LoopId, c: ConnId, conn: Connection.Conn)
    requires l < |s.loops| && c < |s.entries|
    requires forall k :: 0 <= k < |s.loops| ==> LoopInv(s, k)
    requires s.loops[l].q.phase.Handling? || s.loops[l].q.phase.Running?
    requires conn.Alive() <==> s.entries[c].conn.Alive()
    ensures OnlyConnChanged(s, Updated(s, l, c, conn), c, conn)
  {
    var e := s.entries[c].(conn := conn);
    EntryKeepsLoops(s, c, e);
    if conn.notes != s.entries[c].conn.notes {
      QueuedKeepsLoops(WithEntry(s, c, e), l, l, Notify(c));
      QueuedCounts(WithEntry(s, c, e), l, l, Notify(c));
    }
  }

  // The shape of every step that changes one connection, its functors and its place.
  ghost predicate OnlyOneChanged(s: Server, r: Server, c: ConnId)
    requires |s.loops| > 0 && c < |s.entries|
  {
    && |r.loops| == |s.loops| && |r.entries| == |s.entries|
    && (forall d :: 0 <= d < |s.entries| && d != c ==> r.entries[d] == s.entries[d])
    && r.entries[c].fd == s.entries[c].fd
    && (r.connections == s.connections || r.connections == s.connections - {c})
    && (forall k :: 0 <= k < |s.loops| ==> LoopInv(r, k))
    && (forall d :: d != c ==> (HalfRemoved(r, d) <==> HalfRemoved(s, d)))
    && (forall k :: 0 <= k < |s.loops| && r.loops[k].dispatch.Some? ==>
          r.loops[k].dispatch.value.conn == c || r.loops[k].dispatch == s.loops[k].dispatch)
    && (forall k, u: Task :: 0 <= k < |s.loops| && u.conn != c ==> Count(r.loops[k], u) == Count(s.loops[k], u))
  }

  lemma OneChangeKeeps(s: Server, r: Server, c: ConnId)
    requires Inv(s) && c < |s.entries| && Owned(s, c)
    requires OnlyOneChanged(s, r, c) && Placed(r, c)
    ensures Inv(r)
  {
    OwnersShrink(s, r, c);
    assert forall d :: 0 <= d < |s.entries| && d != c ==> SameTokens(s, r, d);
    Rebuilt(s, r, c);
  }

  lemma ConnChangeKeeps(s: Server, r: Server, c: ConnId, conn: Connection.Conn)
    requires Inv(s) && c < |s.entries| && Owned(s, c)
    requires var was := s.entries[c].conn;
             && conn.reports == was.reports
             && (!was.Alive() ==> conn == was)
             && (was.Alive() ==> conn.Alive() && Connection.Inv(conn))
    requires OnlyConnChanged(s, r, c, conn)
    ensures Inv(r)
  {
    assert Placed(s, c);
    UpdatedPlace(s, r, c);
    OneChangeKeeps(s, r, c);
  }

  lemma UserKeeps(s: Server, l: LoopId, c: ConnId, op: Connection.Op)
    requires Inv(s) && Allowed(s, User(l, c, op))
    ensures Inv(After(s, User(l, c, op)))
  {
    assert Placed(s, c);
    var p :| At(s, c, p);
    UserKeepsPlace(s.entries[c].conn, s.config, op);
    var conn := Connection.Step(s.entries[c].conn, s.config, op);
    UpdatedShape(s, l, c, conn);
    ConnChangeKeeps(s, Updated(s, l, c, conn), c, conn);
  }

  // ----- Closing -----

  // Handler `l` moves to `stage` as its connection goes down: every loop stays in order.
  lemma ClosingLoops(s: Server, l: LoopId, stage: Stage, e: Entry)
    requires Inv(s) && l < |s.loops| && s.loops[l].dispatch.Some?
    requires var d := s.loops[l].dispatch.value;
             && d.conn < |s.entries| && e.io == s.entries[d.conn].io && e.established == s.entries[d.conn].established
             && !e.conn.Alive() && (stage.AtWrite? || (stage.AtRead? && d.revents.HangupOnly()))
    ensures var d := s.loops[l].dispatch.value;
            var r := WithEntry(WithLoop(s, l, s.loops[l].(dispatch := Some(d.(stage := stage)))), d.conn, e);
            forall k :: 0 <= k < |s.loops| ==> LoopInv(r, k)
  {
    var d := s.loops[l].dispatch.value;
    var r := WithEntry(WithLoop(s, l, s.loops[l].(dispatch := Some(d.(stage := stage)))), d.conn, e);
    assert LoopInv(s, l);
    forall k | 0 <= k < |s.loops|
      ensures LoopInv(r, k)
    {
      assert LoopInv(s, k);
      if k != l {
        LoopKept(s, r, k, d.conn);
      } else {
        assert forall u :: Count(r.loops[l], u) == Count(s.loops[l], u);
        forall i | 0 <= i < |r.loops[l].active|
          ensures HandlerReady(r, l, r.loops[l].active[i].0)
        {
          assert HandlerReady(s, l, s.loops[l].active[i].0);
        }
      }
    }
  }

  lemma AliveIsUp(s: Server, c: ConnId)
    requires |s.loops| > 0 && c < |s.entries| && Placed(s, c) && s.entries[c].conn.Alive()
    ensures At(s, c, Up)
  {
    var p :| At(s, c, p);
  }

  // `r` is `s` on the loops, but for the handler of `c` and functor `t` arrived on loop `to`.
  ghost predicate Arrived(s: Server, r: Server, c: ConnId, to: LoopId, t: Task) {
    && |r.loops| == |s.loops|
    && (forall k :: 0 <= k < |s.loops| ==>
          LoopInv(r, k) && r.loops[k].running == s.loops[k].running && r.loops[k].erased == s.loops[k].erased)
    && (forall k :: 0 <= k < |s.loops| && r.loops[k].dispatch.Some? ==>
          r.loops[k].dispatch.value.conn == c || r.loops[k].dispatch == s.loops[k].dispatch)
    && (forall k, u: Task :: 0 <= k < |s.loops| ==>
          Count(r.loops[k], u) == Count(s.loops[k], u) + One(k == to && u == t))
  }

  // A connection that was up has been closed; `t` carries it on loop `to` from here on.
  lemma ClosedKeeps(s: Server, r: Server, c: ConnId, to: LoopId, t: Task)
    requires Inv(s) && c < |s.entries| && At(s, c, Up) && Owned(s, c) && to < |s.loops|
    requires |r.entries| == |s.entries| && Arrived(s, r, c, to, t)
    requires forall d :: 0 <= d < |s.entries| && d != c ==> r.entries[d] == s.entries[d]
    requires var e := s.entries[c].(conn := Connection.HandleClose(s.entries[c].conn));
             || (to == BASE && t == Remove(c) && r.entries[c] == e && r.connections == s.connections)
             || (to == e.io && t == Destroy(c) && r.entries[c] == e.(erased := 1) && r.connections == s.connections - {c})
    ensures Inv(r)
  {
    assert Count(s.loops[BASE], Remove(c)) == 0;
    assert !HalfRemoved(s, c);
    ClosedPlace(s, r, c, to, t);
    OneChangeKeeps(s, r, c);
  }

  lemma ClosedPlace(s: Server, r: Server, c: ConnId, to: LoopId, t: Task)
    requires |s.loops| > 0 && c < |s.entries| && At(s, c, Up) && to < |s.loops|
    requires |r.loops| == |s.loops| && |r.entries| == |s.entries| && !HalfRemoved(r, c)
    requires forall k, u: Task :: 0 <= k < |s.loops| ==>
               Count(r.loops[k], u) == Count(s.loops[k], u) + One(k == to && u == t)
    requires var e := s.entries[c].(conn := Connection.HandleClose(s.entries[c].conn));
             || (to == BASE && t == Remove(c) && r.entries[c] == e && r.connections == s.connections)
             || (to == e.io && t == Destroy(c) && r.entries[c] == e.(erased := 1) && r.connections == s.connections - {c})
    ensures Placed(r, c)
  {
    Connection.StepKeeps(s.entries[c].conn, s.config, Connection.OpClose);
    assert At(r, c, if t.Remove? then Removing else Destroying);
  }

  lemma ArrivedByQueue(s: Server, s1: Server, c: ConnId, from: LoopId, to: LoopId, t: Task)
    requires |s1.loops| == |s.loops| && to < |s.loops| && t.conn < |s1.entries|
    requires forall k :: 0 <= k < |s.loops| ==>
               LoopInv(s1, k) && s1.loops[k].running == s.loops[k].running && s1.loops[k].erased == s.loops[k].erased
               && s1.loops[k].q == s.loops[k].q
    requires forall k :: 0 <= k < |s.loops| && s1.loops[k].dispatch.Some? ==>
               s1.loops[k].dispatch.value.conn == c || s1.loops[k].dispatch == s.loops[k].dispatch
    requires from == to ==> s.loops[to].q.phase.Handling? || s.loops[to].q.phase.Running?
    ensures Arrived(s, Queued(s1, from, to, t), c, to, t)
  {
    QueuedKeepsLoops(s1, from, to, t);
    QueuedCounts(s1, from, to, t);
    assert forall k, u :: 0 <= k < |s.loops| ==> Count(s1.loops[k], u) == Count(s.loops[k], u);
  }

  lemma CloseOnWorker(s: Server, l: LoopId, stage: Stage)
    requires Inv(s) && l < |s.loops| && l != BASE && s.loops[l].dispatch.Some?
    requires var d := s.loops[l].dispatch.value;
             && d.conn < |s.entries| && s.entries[d.conn].conn.Alive() && s.entries[d.conn].io == l
             && (stage.AtWrite? || (stage.AtRead? && d.revents.HangupOnly()))
    ensures var d := s.loops[l].dispatch.value;
            Inv(CloseNow(WithLoop(s, l, s.loops[l].(dispatch := Some(d.(stage := stage)))), l, d.conn))
  {
    hide Connection.Inv, LoopSpec.Inv, Tokens, Placed, DescriptorsDiffer, Count;
    var d := s.loops[l].dispatch.value;
    var c := d.conn;
    AliveIsUp(s, c);
    var e := s.entries[c].(conn := Connection.HandleClose(s.entries[c].conn));
    var s1 := WithEntry(WithLoop(s, l, s.loops[l].(dispatch := Some(d.(stage := stage)))), c, e);
    ClosingLoops(s, l, stage, e);
    ArrivedByQueue(s, s1, c, l, BASE, Remove(c));
    ClosedKeeps(s, Queued(s1, l, BASE, Remove(c)), c, BASE, Remove(c));
  }

  lemma CloseOnBase(s: Server, stage: Stage)
    requires Inv(s) && s.loops[BASE].dispatch.Some?
    requires var d := s.loops[BASE].dispatch.value;
             && d.conn < |s.entries| && s.entries[d.conn].conn.Alive() && s.entries[d.conn].io == BASE
             && (stage.AtWrite? || (stage.AtRead? && d.revents.HangupOnly()))
    ensures var d := s.loops[BASE].dispatch.value;
            Inv(CloseNow(WithLoop(s, BASE, s.loops[BASE].(dispatch := Some(d.(stage := stage)))), BASE, d.conn))
  {
    hide Connection.Inv, LoopSpec.Inv, Tokens, Placed, DescriptorsDiffer, Count;
    var d := s.loops[BASE].dispatch.value;
    var c := d.conn;
    AliveIsUp(s, c);
    assert LoopInv(s, BASE);
    var closed := s.entries[c].(conn := Connection.HandleClose(s.entries[c].conn));
    var s0 := WithLoop(s, BASE, s.loops[BASE].(dispatch := Some(d.(stage := stage))));
    var s1 := WithEntry(s0, c, closed.(erased := 1));
    ClosingLoops(s, BASE, stage, closed.(erased := 1));
    var s2 := EraseNow(WithEntry(s0, c, closed), c);
    assert s2.entries == s1.entries;
    forall k | 0 <= k < |s.loops|
      ensures LoopInv(s2, k)
    {
      LoopKept(s1, s2, k, c);
    }
    ArrivedByQueue(s, s2, c, BASE, BASE, Destroy(c));
    ClosedKeeps(s, Queued(s2, BASE, BASE, Destroy(c)), c, BASE, Destroy(c));
  }

  lemma CallbackKeeps(s: Server, l: LoopId, eof: bool, answer: Connection.WriteAnswer)
    requires Inv(s) && Allowed(s, Callback(l, eof, answer))
    requires !ClosesTwice(s, Callback(l, eof, answer))
    ensures Inv(After(s, Callback(l, eof, answer)))
  {
    assert LoopInv(s, l);
    var loop := s.loops[l];
    var d := loop.dispatch.value;
    if d.stage.AtWrite? {
      WriteCallbackKeeps(s, l, eof, answer);
    } else {
      var stage := if d.stage.AtHangup? then AtRead else AtWrite;
      var moved := loop.(dispatch := Some(d.(stage := stage)));
      var closing := if d.stage.AtHangup? then d.revents.HangupOnly() else d.revents.Readable() && eof;
      if closing && l != BASE {
        CloseOnWorker(s, l, stage);
      } else if closing {
        CloseOnBase(s, stage);
      } else {
        DispatchMoves(s, l, Some(d.(stage := stage)));
      }
    }
  }

  // Entering the next stage of a handler, or leaving it, with nothing closed on the way.
  lemma DispatchMoves(s: Server, l: LoopId, next: Option<Dispatch>)
    requires Inv(s) && l < |s.loops| && s.loops[l].dispatch.Some?
    requires next.Some? ==>
               var d := s.loops[l].dispatch.value;
               next.value == d.(stage := next.value.stage) && DispatchInv(s, l, next.value)
    ensures Inv(WithLoop(s, l, s.loops[l].(dispatch := next)))
  {
    assert LoopInv(s, l);
    var loop := s.loops[l];
    var moved := loop.(dispatch := next);
    var r := WithLoop(s, l, moved);
    assert forall u :: Count(moved, u) == Count(loop, u);
    forall i | 0 <= i < |loop.active|
      ensures HandlerReady(r, l, loop.active[i].0)
    {
      assert HandlerReady(s, l, loop.active[i].0);
    }
    assert Holds(loop, loop.dispatch.value.conn);
    QuietKeeps(s, l, moved);
  }

  lemma WriteCallbackKeeps(s: Server, l: LoopId, eof: bool, answer: Connection.WriteAnswer)
    requires Inv(s) && Allowed(s, Callback(l, eof, answer)) && s.loops[l].dispatch.value.stage.AtWrite?
    ensures Inv(After(s, Callback(l, eof, answer)))
  {
    hide Connection.Inv, LoopSpec.Inv, Tokens, DescriptorsDiffer, Connection.HandleWrite;
    assert LoopInv(s, l);
    var d := s.loops[l].dispatch.value;
    var c := d.conn;
    DispatchMoves(s, l, None);
    if d.revents.out {
      var s1 := WithLoop(s, l, s.loops[l].(dispatch := None));
      assert Placed(s, c);
      var p :| At(s, c, p);
      var conn := Connection.HandleWrite(s.entries[c].conn, s.config, answer);
      WriteKeepsPlace(s.entries[c].conn, s.config, answer);
      UpdatedShape(s1, l, c, conn);
      var r := Updated(s1, l, c, conn);
      assert forall k, u :: 0 <= k < |s.loops| ==> Count(s1.loops[k], u) == Count(s.loops[k], u);
      assert Holds(s.loops[l], c);
      ConnChangeKeeps(s, r, c, conn);
    }
  }

  // ----- Functors -----

  function Idle(s: Server, l: LoopId): Server
    requires l < |s.loops|
  {
    WithLoop(s, l, s.loops[l].(running := None, erased := false))
  }

  // Functor `t` has gone from loop `l`; nothing else has happened on any loop.
  ghost predicate Departed(s: Server, r: Server, l: LoopId, t: Task) {
    && |r.loops| == |s.loops|
    && (forall k :: 0 <= k < |s.loops| ==> LoopInv(r, k) && r.loops[k].dispatch == s.loops[k].dispatch)
    && (forall k :: 0 <= k < |s.loops| && k != l ==>
          r.loops[k].running == s.loops[k].running && r.loops[k].erased == s.loops[k].erased)
    && (forall k, u: Task :: 0 <= k < |s.loops| ==>
          Count(r.loops[k], u) + One(k == l && u == t) == Count(s.loops[k], u))
  }

  lemma IdleShape(s: Server, l: LoopId)
    requires l < |s.loops| && s.loops[l].running.Some?
    requires forall k :: 0 <= k < |s.loops| ==> LoopInv(s, k)
    ensures Departed(s, Idle(s, l), l, s.loops[l].running.value)
  {
    var r := Idle(s, l);
    FinishedCounts(s, l);
    assert LoopInv(s, l);
    forall k | 0 <= k < |s.loops|
      ensures LoopInv(r, k)
    {
      assert LoopInv(s, k);
      if k != l {
        LoopKept(s, r, k, 0);
      } else {
        assert forall u :: Count(r.loops[l], u) > 0 ==> Count(s.loops[l], u) > 0;
      }
    }
  }

  // A connection's functor has run: the connection is at its next place.
  lemma FunctorKeeps(s: Server, r: Server, c: ConnId)
    requires Inv(s) && c < |s.entries| && Owned(s, c)
    requires |r.loops| == |s.loops| && |r.entries| == |s.entries| && r.entries[c].fd == s.entries[c].fd
    requires forall k :: 0 <= k < |s.loops| ==> LoopInv(r, k) && r.loops[k].dispatch == s.loops[k].dispatch
    requires forall k, u: Task :: 0 <= k < |s.loops| && u.conn != c ==> Count(r.loops[k], u) == Count(s.loops[k], u)
    requires (s.loops[BASE].running == r.loops[BASE].running && s.loops[BASE].erased == r.loops[BASE].erased)
             || (s.loops[BASE].running.Some? && s.loops[BASE].running.value.conn == c
                 && (r.loops[BASE].running == s.loops[BASE].running || r.loops[BASE].running.None?))
    requires forall d :: 0 <= d < |s.entries| && d != c ==> r.entries[d] == s.entries[d]
    requires r.connections == s.connections || r.connections == s.connections - {c}
    requires Placed(r, c)
    ensures Inv(r)
  {
    OneChangeKeeps(s, r, c);
  }

  // The functor being run says where its connection is.
  lemma RunningPlace(s: Server, l: LoopId, t: Task)
    requires Inv(s) && l < |s.loops| && s.loops[l].running == Some(t) && t.conn < |s.entries|
    ensures Owned(s, t.conn)
    ensures t.Establish? ==> At(s, t.conn, Opening) && s.entries[t.conn].io == l
    ensures t.Remove? ==> At(s, t.conn, Removing) && l == BASE
    ensures t.Destroy? ==> At(s, t.conn, Destroying) && s.entries[t.conn].io == l
  {
    assert Count(s.loops[l], t) > 0;
    assert Holds(s.loops[l], t.conn);
    assert Placed(s, t.conn);
    var p :| At(s, t.conn, p);
  }

  lemma EstablishKeeps(s: Server, l: LoopId)
    requires Inv(s) && Allowed(s, Execute(l)) && s.loops[l].running.value.Establish?
    ensures Inv(ExecuteNow(s, l))
  {
    hide LoopSpec.Inv, DescriptorsDiffer;
    var c := s.loops[l].running.value.conn;
    RunningPlace(s, l, Establish(c));
    IdleShape(s, l);
    var idle := Idle(s, l);
    var r := EstablishNow(idle, c);
    forall k | 0 <= k < |s.loops|
      ensures LoopInv(r, k)
    {
      LoopKept(idle, r, k, c);
    }
    Connection.EstablishedHolds();
    assert At(r, c, Up);
    FunctorKeeps(s, r, c);
  }

  // The erase of removeConnectionInLoop ...
  lemma EraseKeeps(s: Server, l: LoopId)
    requires Inv(s) && Allowed(s, Execute(l)) && s.loops[l].running.value.Remove? && !s.loops[l].erased
    ensures Inv(ExecuteNow(s, l))
  {
    hide Connection.Inv, LoopSpec.Inv, DescriptorsDiffer, Tokens;
    var loop := s.loops[l];
    var c := loop.running.value.conn;
    RunningPlace(s, l, Remove(c));
    assert LoopInv(s, l);
    var half := loop.(erased := true);
    var s1 := WithLoop(s, l, half);
    var r := EraseNow(s1, c);
    assert forall k, u :: 0 <= k < |s.loops| ==> Count(r.loops[k], u) == Count(s.loops[k], u);
    ErasedLoops(s, r, c);
    ErasedPlace(s, r, c);
    FunctorKeeps(s, r, c);
  }

  // `r` is `s` with the erase of connection `c` half done.
  ghost predicate HalfErased(s: Server, r: Server, c: ConnId) {
    && |s.loops| > 0 && c < |s.entries| && r == EraseNow(s, c).(loops := s.loops[BASE := s.loops[BASE].(erased := true)])
    && s.loops[BASE].running == Some(Remove(c))
  }

  lemma ErasedLoops(s: Server, r: Server, c: ConnId)
    requires Inv(s) && HalfErased(s, r, c)
    ensures forall k :: 0 <= k < |s.loops| ==> LoopInv(r, k)
  {
    hide Connection.Inv, LoopSpec.Inv, DescriptorsDiffer, Tokens, At;
    forall k | 0 <= k < |s.loops|
      ensures LoopInv(r, k)
    {
      assert LoopInv(s, k);
      if k != BASE {
        LoopKept(s, r, k, c);
      }
    }
  }

  lemma ErasedPlace(s: Server, r: Server, c: ConnId)
    requires HalfErased(s, r, c) && At(s, c, Removing) && !s.loops[BASE].erased
    ensures Placed(r, c)
  {
    hide Connection.Inv;
    assert forall k, u :: 0 <= k < |s.loops| ==> Count(r.loops[k], u) == Count(s.loops[k], u);
    assert At(r, c, Removing);
  }

  // ... and its queueInLoop.
  lemma QueueDestroyKeeps(s: Server, l: LoopId)
    requires Inv(s) && Allowed(s, Execute(l)) && s.loops[l].running.value.Remove? && s.loops[l].erased
    ensures Inv(ExecuteNow(s, l))
  {
    var c := s.loops[l].running.value.conn;
    RunningPlace(s, l, Remove(c));
    QueueDestroyShape(s, c);
    DestroyQueuedKeeps(s, Queued(Idle(s, BASE), BASE, s.entries[c].io, Destroy(c)), c);
  }

  lemma DestroyQueuedKeeps(s: Server, r: Server, c: ConnId)
    requires Inv(s) && c < |s.entries| && Owned(s, c) && At(s, c, Removing) && HalfRemoved(s, c)
    requires |r.loops| == |s.loops| && r.entries == s.entries && r.connections == s.connections
    requires forall k :: 0 <= k < |s.loops| ==> LoopInv(r, k) && r.loops[k].dispatch == s.loops[k].dispatch
    requires r.loops[BASE].running.None?
    requires forall k, u: Task :: 0 <= k < |s.loops| ==>
               Count(r.loops[k], u) + One(k == BASE && u == Remove(c))
               == Count(s.loops[k], u) + One(k == s.entries[c].io && u == Destroy(c))
    ensures Inv(r)
  {
    DestroyingPlace(s, r, c);
    FunctorKeeps(s, r, c);
  }

  lemma QueueDestroyShape(s: Server, c: ConnId)
    requires Inv(s) && c < |s.entries| && s.entries[c].io < |s.loops|
    requires s.loops[BASE].running == Some(Remove(c))
    ensures var io := s.entries[c].io; var r := Queued(Idle(s, BASE), BASE, io, Destroy(c));
            && (forall k :: 0 <= k < |s.loops| ==> LoopInv(r, k) && r.loops[k].dispatch == s.loops[k].dispatch)
            && r.loops[BASE].running.None?
            && (forall k, u: Task :: 0 <= k < |s.loops| ==>
                  Count(r.loops[k], u) + One(k == BASE && u == Remove(c))
                  == Count(s.loops[k], u) + One(k == io && u == Destroy(c)))
  {
    hide Connection.Inv, LoopSpec.Inv, DescriptorsDiffer;
    IdleShape(s, BASE);
    assert LoopInv(s, BASE);
    var idle := Idle(s, BASE);
    QueuedKeepsLoops(idle, BASE, s.entries[c].io, Destroy(c));
    QueuedCounts(idle, BASE, s.entries[c].io, Destroy(c));
  }

  lemma DestroyingPlace(s: Server, r: Server, c: ConnId)
    requires |s.loops| > 0 && |r.loops| == |s.loops| && c < |s.entries| && r.entries == s.entries
    requires At(s, c, Removing) && HalfRemoved(s, c) && r.connections == s.connections
    requires forall k, u: Task :: 0 <= k < |s.loops| ==>
               Count(r.loops[k], u) + One(k == BASE && u == Remove(c))
               == Count(s.loops[k], u) + One(k == s.entries[c].io && u == Destroy(c))
    ensures Placed(r, c)
  {
    forall k | 0 <= k < |r.loops|
      ensures Count(r.loops[k], Establish(c)) == 0 && Count(r.loops[k], Remove(c)) == 0
      ensures Count(r.loops[k], Destroy(c)) == if k == s.entries[c].io then 1 else 0
    {
      assert Count(s.loops[k], Establish(c)) == 0;
    }
    assert At(r, c, Destroying);
  }

  lemma DestroyKeeps(s: Server, l: LoopId)
    requires Inv(s) && Allowed(s, Execute(l)) && s.loops[l].running.value.Destroy?
    ensures Inv(ExecuteNow(s, l))
  {
    var c := s.loops[l].running.value.conn;
    RunningPlace(s, l, Destroy(c));
    DestroyShape(s, l, c);
    DestroyedKeeps(s, WithEntry(Idle(s, l), c, DestroyedEntry(s.entries[c])), l, c);
  }

  lemma DestroyShape(s: Server, l: LoopId, c: ConnId)
    requires l < |s.loops| && c < |s.entries| && s.entries[c].conn.state.Disconnected?
    requires forall k :: 0 <= k < |s.loops| ==> LoopInv(s, k)
    requires s.loops[l].running == Some(Destroy(c))
    ensures Departed(s, WithEntry(Idle(s, l), c, DestroyedEntry(s.entries[c])), l, Destroy(c))
  {
    IdleShape(s, l);
    EntryKeepsLoops(Idle(s, l), c, DestroyedEntry(s.entries[c]));
  }

  lemma DestroyedKeeps(s: Server, r: Server, l: LoopId, c: ConnId)
    requires Inv(s) && l < |s.loops| && c < |s.entries| && Owned(s, c)
    requires At(s, c, Destroying) && s.entries[c].io == l && s.loops[l].running == Some(Destroy(c))
    requires Departed(s, r, l, Destroy(c)) && r.loops[l].running.None? && r.connections == s.connections
    requires r.entries == s.entries[c := DestroyedEntry(s.entries[c])]
    ensures Inv(r)
  {
    GonePlace(s, r, l, c);
    FunctorKeeps(s, r, c);
  }

  lemma GonePlace(s: Server, r: Server, l: LoopId, c: ConnId)
    requires |s.loops| > 0 && |r.loops| == |s.loops| && c < |s.entries| && c < |r.entries|
    requires At(s, c, Destroying) && s.entries[c].io == l && r.connections == s.connections
    requires r.entries[c] == DestroyedEntry(s.entries[c])
    requires forall k, u: Task :: 0 <= k < |s.loops| ==>
               Count(r.loops[k], u) + One(k == l && u == Destroy(c)) == Count(s.loops[k], u)
    ensures Placed(r, c)
  {
    forall k | 0 <= k < |r.loops|
      ensures Count(r.loops[k], Establish(c)) == 0 && Count(r.loops[k], Remove(c)) == 0
      ensures Count(r.loops[k], Destroy(c)) == 0
    {
      assert Count(s.loops[k], Establish(c)) == 0;
    }
    assert At(r, c, Gone);
  }

  lemma NotifyKeeps(s: Server, l: LoopId)
    requires Inv(s) && Allowed(s, Execute(l)) && s.loops[l].running.value.Notify?
    ensures Inv(ExecuteNow(s, l))
  {
    hide Connection.Inv, LoopSpec.Inv, Tokens, At, Count, Holds, Owned, DescriptorsDiffer;
    var c := s.loops[l].running.value.conn;
    RunningPlace(s, l, Notify(c));
    IdleShape(s, l);
    assert LoopInv(s, l);
    SamePlace(s, Idle(s, l), c);
    FunctorKeeps(s, Idle(s, l), c);
  }

  lemma SamePlace(s: Server, r: Server, c: ConnId)
    requires |s.loops| > 0 && |r.loops| == |s.loops| && c < |s.entries| && c < |r.entries|
    requires Placed(s, c) && Untouched(s, r, c)
    ensures Placed(r, c)
  {
    var p :| At(s, c, p);
    PlaceKept(s, r, c, p);
  }

  // ----- Accepting -----

  lemma AcceptKeeps(s: Server, fd: int, io: LoopId)
    requires Inv(s) && Allowed(s, Accept(fd, io))
    ensures Inv(After(s, Accept(fd, io)))
  {
    var c := |s.entries|;
    var s1 := s.(entries := s.entries + [Entry(fd, io, Connection.Initial(), 0, 0, 0)], connections := s.connections + {c});
    NoTrace(s, c);
    forall k | 0 <= k < |s.loops|
      ensures LoopInv(s1, k)
    {
      assert LoopInv(s, k);
      LoopKept(s, s1, k, c);
    }
    if io == BASE {
      AcceptedOnBase(s1, c);
      AcceptedRest(s, EstablishNow(s1, c), fd);
    } else {
      AcceptedForWorker(s1, c, io);
      AcceptedRest(s, Queued(s1, BASE, io, Establish(c)), fd);
    }
  }

  ghost predicate JustAccepted(s: Server, c: ConnId, io: LoopId) {
    && 0 < |s.loops| && io < |s.loops| && |s.entries| == c + 1 && c in s.connections
    && s.entries[c].io == io && s.entries[c].conn == Connection.Initial()
    && (s.entries[c].established, s.entries[c].erased, s.entries[c].destroyed) == (0, 0, 0)
    && (forall k, u: Task :: 0 <= k < |s.loops| && u.conn == c ==> Count(s.loops[k], u) == 0)
    && (forall k :: 0 <= k < |s.loops| ==> LoopInv(s, k))
  }

  lemma AcceptedOnBase(s: Server, c: ConnId)
    requires JustAccepted(s, c, BASE)
    ensures var r := EstablishNow(s, c); Placed(r, c) && forall k :: 0 <= k < |s.loops| ==> LoopInv(r, k)
  {
    var r := EstablishNow(s, c);
    forall k | 0 <= k < |s.loops|
      ensures LoopInv(r, k)
    {
      LoopKept(s, r, k, c);
    }
    Connection.EstablishedHolds();
    assert At(r, c, Up);
  }

  lemma AcceptedForWorker(s: Server, c: ConnId, io: LoopId)
    requires JustAccepted(s, c, io) && io != BASE
    ensures var r := Queued(s, BASE, io, Establish(c));
            && Placed(r, c) && (forall k :: 0 <= k < |s.loops| ==> LoopInv(r, k))
            && (forall k, u: Task :: 0 <= k < |s.loops| && u.conn != c ==> Count(r.loops[k], u) == Count(s.loops[k], u))
  {
    QueuedKeepsLoops(s, BASE, io, Establish(c));
    QueuedCounts(s, BASE, io, Establish(c));
    assert At(Queued(s, BASE, io, Establish(c)), c, Opening);
  }

  // A connection that does not exist yet is nowhere.
  lemma NoTrace(s: Server, c: ConnId)
    requires Inv(s) && c == |s.entries|
    ensures forall k, u: Task :: 0 <= k < |s.loops| && u.conn == c ==> Count(s.loops[k], u) == 0
    ensures !Owned(s, c)
  {
    forall k | 0 <= k < |s.loops|
      ensures !Holds(s.loops[k], c) && forall u: Task :: u.conn == c ==> Count(s.loops[k], u) == 0
    {
      assert LoopInv(s, k);
    }
  }

  lemma AcceptedRest(s: Server, r: Server, fd: int)
    requires Inv(s) && |r.loops| == |s.loops| && |r.entries| == |s.entries| + 1
    requires var c := |s.entries|;
             && r.entries[..c] == s.entries && r.entries[c].fd == fd && r.connections == s.connections + {c}
             && (forall k :: 0 <= k < |s.loops| ==> LoopInv(r, k))
             && (forall k :: 0 <= k < |s.loops| ==>
                   r.loops[k].dispatch == s.loops[k].dispatch
                   && r.loops[k].running == s.loops[k].running && r.loops[k].erased == s.loops[k].erased)
             && (forall k, u: Task :: 0 <= k < |s.loops| && u.conn != c ==>
                   Count(r.loops[k], u) == Count(s.loops[k], u))
             && Placed(r, c)
    requires forall d :: 0 <= d < |s.entries| && Owned(s, d) ==> s.entries[d].fd != fd
    ensures Inv(r)
  {
    var c := |s.entries|;
    forall d | 0 <= d < c
      ensures Placed(r, d)
      ensures Owned(r, d) ==> Owned(s, d)
      ensures r.entries[d] == s.entries[d]
    {
      assert r.entries[..c][d] == s.entries[d];
      assert Placed(s, d);
      var p :| At(s, d, p);
      assert SameTokens(s, r, d);
      PlaceKept(s, r, d, p);
      if Owned(r, d) && d !in s.connections {
        var k :| 0 <= k < |r.loops| && Holds(r.loops[k], d);
        assert Count(r.loops[k], Notify(d)) == Count(s.loops[k], Notify(d));
        assert Holds(s.loops[k], d);
      }
    }
  }

  // ----- Every step, every run -----

  lemma StepKeeps(s: Server, step: Step)
    requires Inv(s) && Allowed(s, step) && !ClosesTwice(s, step)
    ensures Inv(After(s, step))
  {
    match step {
      case Accept(fd, io) => AcceptKeeps(s, fd, io);
      case Poll(l, reported) => PollKeeps(s, l, reported);
      case Drain(l) => MovedKeeps(s, l, LoopSpec.DrainWakeup);
      case Handle(l) => HandleKeeps(s, l);
      case Callback(l, eof, answer) => CallbackKeeps(s, l, eof, answer);
      case StartFunctors(l) => MovedKeeps(s, l, LoopSpec.BeginCalling);
      case SwapFunctors(l) => MovedKeeps(s, l, LoopSpec.Swap);
      case Take(l) => TakeKeeps(s, l);
      case Execute(l) =>
        match s.loops[l].running.value {
          case Establish(_) => EstablishKeeps(s, l);
          case Remove(_) => if s.loops[l].erased { QueueDestroyKeeps(s, l); } else { EraseKeeps(s, l); }
          case Destroy(_) => DestroyKeeps(s, l);
          case Notify(_) => NotifyKeeps(s, l);
        }
      case EndFunctors(l) => MovedKeeps(s, l, LoopSpec.EndBatch);
      case RingBell(l) => MovedKeeps(s, l, LoopSpec.WriteElsewhere);
      case User(l, c, op) => UserKeeps(s, l, c, op);
    }
  }

  lemma StartHolds(config: Connection.Config, n: nat)
    requires n > 0
    ensures Inv(Start(config, n))
  {
    var s := Start(config, n);
    forall l | 0 <= l < |s.loops|
      ensures LoopInv(s, l)
    {
      assert forall t :: Count(s.loops[l], t) == 0;
    }
  }

  lemma {:induction false} RunKeeps(s: Server, steps: seq<Step>)
    requires Inv(s) && Runs(s, steps) && NeverClosesTwice(s, steps)
    ensures Inv(Run(s, steps))
    decreases steps
  {
    if steps != [] {
      StepKeeps(s, steps[0]);
      RunKeeps(After(s, steps[0]), steps[1..]);
    }
  }

  // What may be said of one connection at any time.
  ghost predicate ConnectionSafe(s: Server, c: ConnId)
    requires c < |s.entries|
  {
    var e := s.entries[c];
    // a poller that still knows the channel finds the connection alive
    && (!e.conn.index.New? ==> Owned(s, c))
    // established, erased from the map, destroyed: each at most once, in that order
    && e.destroyed <= e.erased <= e.established <= 1
    // the user hears of at most one UP and then at most one DOWN, the latter before the erase
    && (e.conn.reports == [] || e.conn.reports == [true] || e.conn.reports == [true, false])
    && (e.established == 1 <==> e.conn.reports != [])
    && (e.erased == 1 ==> e.conn.reports == [true, false])
    // once destroyed no poller knows the channel, and while the map has it nothing was erased
    && (e.destroyed == 1 ==> e.conn.index.New?)
    && (c in s.connections <==> e.erased == 0)
    // and on its own loop it keeps what ConnectionSpec promises
    && (e.established == 1 ==> Connection.Inv(e.conn))
  }

  // What may be said of one loop at any time.
  ghost predicate LoopSafe(s: Server, l: LoopId)
    requires l < |s.loops|
  {
    && LoopSpec.NoLostWakeup(s.loops[l].q) && LoopSpec.Conserved(s.loops[l].q)
    // the channels still to be handled belong to connections that are alive and up
    && (forall i :: 0 <= i < |s.loops[l].active| ==>
          var c := s.loops[l].active[i].0; c < |s.entries| && Owned(s, c) && s.entries[c].conn.Alive())
  }

  // No poller knows two channels under one descriptor: what EPollPoller asks of its clients.
  ghost predicate OneChannelPerDescriptor(s: Server) {
    forall c, d :: 0 <= c < |s.entries| && 0 <= d < |s.entries| && c != d
      && !s.entries[c].conn.index.New? && !s.entries[d].conn.index.New?
      ==> s.entries[c].fd != s.entries[d].fd
  }

  ghost predicate Safe(s: Server) {
    && (forall c :: 0 <= c < |s.entries| ==> ConnectionSafe(s, c))
    && (forall l :: 0 <= l < |s.loops| ==> LoopSafe(s, l))
    && OneChannelPerDescriptor(s)
  }

  lemma PlacedIsSafe(s: Server, c: ConnId)
    requires Inv(s) && c < |s.entries|
    ensures ConnectionSafe(s, c)
  {
    assert Placed(s, c);
    var p :| At(s, c, p);
    var e := s.entries[c];
    if p == Removing {
      assert Count(s.loops[BASE], Remove(c)) == 1;
      assert Holds(s.loops[BASE], c);
    } else if p == Destroying {
      assert Count(s.loops[e.io], Destroy(c)) == 1;
      assert Holds(s.loops[e.io], c);
    }
  }

  lemma InvIsSafe(s: Server)
    requires Inv(s)
    ensures Safe(s)
  {
    forall c | 0 <= c < |s.entries|
      ensures ConnectionSafe(s, c)
    {
      PlacedIsSafe(s, c);
    }
    forall l | 0 <= l < |s.loops|
      ensures LoopSafe(s, l)
    {
      assert LoopInv(s, l);
      forall i | 0 <= i < |s.loops[l].active|
        ensures var c := s.loops[l].active[i].0; c < |s.entries| && Owned(s, c) && s.entries[c].conn.Alive()
      {
        var c := s.loops[l].active[i].0;
        assert HandlerReady(s, l, c);
        assert Placed(s, c);
        AliveIsUp(s, c);
      }
    }
    forall c, d | 0 <= c < |s.entries| && 0 <= d < |s.entries| && c != d
                  && !s.entries[c].conn.index.New? && !s.entries[d].conn.index.New?
      ensures s.entries[c].fd != s.entries[d].fd
    {
      PlacedIsSafe(s, c);
      PlacedIsSafe(s, d);
    }
  }

  // The main theorem: in every interleaving in which no handler closes its connection twice,
  // every state is safe.
  lemma LifecycleSafety(config: Connection.Config, n: nat, steps: seq<Step>)
    requires n > 0
    requires Runs(Start(config, n), steps) && NeverClosesTwice(Start(config, n), steps)
    ensures Safe(Run(Start(config, n), steps))
  {
    StartHolds(config, n);
    RunKeeps(Start(config, n), steps);
    InvIsSafe(Run(Start(config, n), steps));
  }

  // ----- The excluded event pattern is exactly what breaks the promise to the user -----

  function Downs(reports: seq<bool>): nat {
    if reports == [] then 0 else One(!reports[0]) + Downs(reports[1..])
  }

  lemma DownsCounted()
    ensures Downs([]) == 0 && Downs([true]) == 0 && Downs([true, false]) == 1 && Downs([true, false, false]) == 2
  {
    assert [true, false, false][1..] == [false, false] && [true, false][1..] == [false];
  }

  ghost predicate OneDownEach(s: Server) {
    forall c :: 0 <= c < |s.entries| ==> Downs(s.entries[c].conn.reports) <= 1
  }

  lemma {:induction false} DownsGrow(early: seq<bool>, late: seq<bool>)
    requires early <= late
    ensures Downs(early) <= Downs(late)
    decreases early
  {
    if early != [] {
      DownsGrow(early[1..], late[1..]);
    }
  }

  // Whatever happens, what the user has heard stays said.
  ghost predicate ReportsGrow(s: Server, r: Server) {
    |s.entries| <= |r.entries|
    && forall c :: 0 <= c < |s.entries| ==> s.entries[c].conn.reports <= r.entries[c].conn.reports
  }

  lemma CloseReports(s: Server, l: LoopId, c: ConnId)
    requires |s.loops| > 0 && c < |s.entries| && s.entries[c].io < |s.loops|
    ensures ReportsGrow(s, CloseNow(s, l, c))
  {
  }

  lemma UpdateReports(s: Server, l: LoopId, c: ConnId, conn: Connection.Conn)
    requires l < |s.loops| && c < |s.entries| && conn.reports == s.entries[c].conn.reports
    ensures ReportsGrow(s, Updated(s, l, c, conn))
  {
  }

  lemma CallbackReports(s: Server, l: LoopId, eof: bool, answer: Connection.WriteAnswer)
    requires Allowed(s, Callback(l, eof, answer))
    ensures ReportsGrow(s, CallbackNow(s, l, eof, answer))
  {
    var d := s.loops[l].dispatch.value;
    if d.stage.AtWrite? {
      var conn := Connection.HandleWrite(s.entries[d.conn].conn, s.config, answer);
      UpdateReports(WithLoop(s, l, s.loops[l].(dispatch := None)), l, d.conn, conn);
    } else {
      var stage := if d.stage.AtHangup? then AtRead else AtWrite;
      CloseReports(WithLoop(s, l, s.loops[l].(dispatch := Some(d.(stage := stage)))), l, d.conn);
    }
  }

  lemma ExecuteReports(s: Server, l: LoopId)
    requires Allowed(s, Execute(l))
    ensures ReportsGrow(s, ExecuteNow(s, l))
  {
  }

  lemma StepReports(s: Server, step: Step)
    requires Allowed(s, step)
    ensures ReportsGrow(s, After(s, step))
  {
    match step {
      case User(l, c, op) =>
        UserKeepsPlace(s.entries[c].conn, s.config, op);
        UpdateReports(s, l, c, Connection.Step(s.entries[c].conn, s.config, op));
      case Callback(l, eof, answer) => CallbackReports(s, l, eof, answer);
      case Execute(l) => ExecuteReports(s, l);
      case _ =>
    }
  }

  lemma {:induction false} RunReports(s: Server, steps: seq<Step>)
    requires Runs(s, steps)
    ensures ReportsGrow(s, Run(s, steps))
    decreases steps
  {
    if steps != [] {
      StepReports(s, steps[0]);
      RunReports(After(s, steps[0]), steps[1..]);
    }
  }

  lemma SecondDown(s: Server, step: Step)
    requires Inv(s) && Allowed(s, step) && ClosesTwice(s, step)
    ensures var c := s.loops[step.l].dispatch.value.conn;
            c < |After(s, step).entries| && Downs(After(s, step).entries[c].conn.reports) == 2
  {
    assert LoopInv(s, step.l);
    var c := s.loops[step.l].dispatch.value.conn;
    assert Placed(s, c);
    var p :| At(s, c, p);
    assert After(s, step).entries[c].conn.reports == [true, false, false];
    DownsCounted();
  }

  lemma {:induction false} OneDownFrom(s: Server, steps: seq<Step>)
    requires Inv(s) && Runs(s, steps)
    ensures NeverClosesTwice(s, steps) <==> OneDownEach(Run(s, steps))
    decreases steps
  {
    if steps == [] {
      DownsCounted();
      forall c | 0 <= c < |s.entries|
        ensures Downs(s.entries[c].conn.reports) <= 1
      {
        PlacedIsSafe(s, c);
      }
    } else if ClosesTwice(s, steps[0]) {
      SecondDown(s, steps[0]);
      var c := s.loops[steps[0].l].dispatch.value.conn;
      var r := After(s, steps[0]);
      RunReports(r, steps[1..]);
      DownsGrow(r.entries[c].conn.reports, Run(r, steps[1..]).entries[c].conn.reports);
    } else {
      StepKeeps(s, steps[0]);
      OneDownFrom(After(s, steps[0]), steps[1..]);
    }
  }

  // Every user hears of at most one DOWN per connection if and only if no handler ever
  // meets a hang-up without EPOLLIN together with EPOLLPRI and reads end-of-file.
  lemma OneDownIffNeverClosesTwice(config: Connection.Config, n: nat, steps: seq<Step>)
    requires n > 0 && Runs(Start(config, n), steps)
    ensures NeverClosesTwice(Start(config, n), steps) <==> OneDownEach(Run(Start(config, n), steps))
  {
    StartHolds(config, n);
    OneDownFrom(Start(config, n), steps);
  }

  // So the server is safe at the end of a run if and only if no handler in it has met that
  // event pattern: the assumption of LifecycleSafety cannot be weakened.
  lemma SafeIffNeverClosesTwice(config: Connection.Config, n: nat, steps: seq<Step>)
    requires n > 0 && Runs(Start(config, n), steps)
    ensures NeverClosesTwice(Start(config, n), steps) <==> Safe(Run(Start(config, n), steps))
  {
    hide Runs, Run, NeverClosesTwice, LoopSafe, OneChannelPerDescriptor, Owned, Connection.Inv;
    OneDownIffNeverClosesTwice(config, n, steps);
    var s := Run(Start(config, n), steps);
    if NeverClosesTwice(Start(config, n), steps) {
      LifecycleSafety(config, n, steps);
    } else {
      var c :| 0 <= c < |s.entries| && Downs(s.entries[c].conn.reports) > 1;
      DownsCounted();
      assert !ConnectionSafe(s, c);
    }
  }

  // ----- The pattern does occur: one loop, one connection -----

  lemma Extend(s: Server, step: Step, rest: seq<Step>)
    requires Allowed(s, step) && Runs(After(s, step), rest)
    ensures Runs(s, [step] + rest) && Run(s, [step] + rest) == Run(After(s, step), rest)
  {
    hide Allowed, After;
    assert ([step] + rest)[1..] == rest;
  }

  // A loop between two steps, with nothing queued.
  function Quiet(phase: LoopSpec.Phase, active: seq<(ConnId, Revents)>, dispatch: Option<Dispatch>): Loop {
    Loop(LoopSpec.LoopState(phase, 0, false, [], [], false, 0, [], []), active, dispatch, None, false)
  }

  const HANGUP: Revents := Revents(true, false, true, false, false)

  function Alone(config: Connection.Config, loop: Loop, conn: Connection.Conn): Server {
    Server(config, [loop], [Entry(7, BASE, conn, 1, 0, 0)], {0})
  }

  const UP: Connection.Conn := Connection.Established(Connection.Initial())

  // The first connection is accepted on the base loop, ...
  function AcceptSteps(): seq<Step> { [Poll(BASE, [])] + ([Accept(7, BASE)] + []) }

  // ... the loop goes back to poll, ...
  function IdleSteps(): seq<Step> { [StartFunctors(BASE)] + ([SwapFunctors(BASE)] + ([EndFunctors(BASE)] + [])) }

  // ... a hang-up with EPOLLPRI is reported for the connection, ...
  function HangupSteps(): seq<Step> { [Poll(BASE, [(0, HANGUP)])] + ([Handle(BASE)] + []) }

  // ... and the close callback is followed by a read callback that meets end-of-file.
  function CallbackSteps(): seq<Step> {
    [Callback(BASE, false, Connection.Took(0))] + ([Callback(BASE, true, Connection.Took(0))] + [])
  }

  lemma Accepts(config: Connection.Config)
    ensures Runs(Start(config, 1), AcceptSteps())
    ensures Run(Start(config, 1), AcceptSteps()) == Alone(config, Quiet(LoopSpec.Handling, [], None), UP)
  {
    var s0 := Start(config, 1);
    var s1 := After(s0, Poll(BASE, []));
    assert s1 == Server(config, [Quiet(LoopSpec.Handling, [], None)], [], {});
    var s2 := After(s1, Accept(7, BASE));
    assert s2 == Alone(config, Quiet(LoopSpec.Handling, [], None), UP);
    Extend(s1, Accept(7, BASE), []);
    Extend(s0, Poll(BASE, []), [Accept(7, BASE)] + []);
  }

  lemma IdleStep(config: Connection.Config, phase: LoopSpec.Phase, step: Step, next: LoopSpec.Phase)
    requires || (phase.Handling? && step == StartFunctors(BASE) && next.Calling?)
             || (phase.Calling? && step == SwapFunctors(BASE) && next.Running?)
             || (phase.Running? && step == EndFunctors(BASE) && next.AtPoll?)
    ensures var s := Alone(config, Quiet(phase, [], None), UP);
            Allowed(s, step) && After(s, step) == Alone(config, Quiet(next, [], None), UP)
  {
    var s := Alone(config, Quiet(phase, [], None), UP);
    assert After(s, step).loops == [Quiet(next, [], None)];
  }

  lemma Idles(config: Connection.Config)
    ensures var s := Alone(config, Quiet(LoopSpec.Handling, [], None), UP);
            Runs(s, IdleSteps()) && Run(s, IdleSteps()) == Alone(config, Quiet(LoopSpec.AtPoll, [], None), UP)
  {
    hide Allowed, After, Alone, Quiet;
    IdleStep(config, LoopSpec.Handling, StartFunctors(BASE), LoopSpec.Calling);
    IdleStep(config, LoopSpec.Calling, SwapFunctors(BASE), LoopSpec.Running);
    IdleStep(config, LoopSpec.Running, EndFunctors(BASE), LoopSpec.AtPoll);
    Extend(Alone(config, Quiet(LoopSpec.Running, [], None), UP), EndFunctors(BASE), []);
    Extend(Alone(config, Quiet(LoopSpec.Calling, [], None), UP), SwapFunctors(BASE), [EndFunctors(BASE)] + []);
    Extend(Alone(config, Quiet(LoopSpec.Handling, [], None), UP), StartFunctors(BASE),
           [SwapFunctors(BASE)] + ([EndFunctors(BASE)] + []));
  }

  lemma HangsUp(config: Connection.Config)
    ensures var s := Alone(config, Quiet(LoopSpec.AtPoll, [], None), UP);
            && Runs(s, HangupSteps())
            && Run(s, HangupSteps())
               == Alone(config, Quiet(LoopSpec.Handling, [], Some(Dispatch(0, HANGUP, AtHangup))), UP)
  {
    var s5 := Alone(config, Quiet(LoopSpec.AtPoll, [], None), UP);
    var s6 := After(s5, Poll(BASE, [(0, HANGUP)]));
    assert s6 == Alone(config, Quiet(LoopSpec.Handling, [(0, HANGUP)], None), UP);
    assert [(0, HANGUP)][1..] == [];
    var s7 := After(s6, Handle(BASE));
    assert s7 == Alone(config, Quiet(LoopSpec.Handling, [], Some(Dispatch(0, HANGUP, AtHangup))), UP);
    Extend(s6, Handle(BASE), []);
    Extend(s5, Poll(BASE, [(0, HANGUP)]), [Handle(BASE)] + []);
  }

  lemma ClosesAndReads(config: Connection.Config)
    ensures var s := Alone(config, Quiet(LoopSpec.Handling, [], Some(Dispatch(0, HANGUP, AtHangup))), UP);
            && Runs(s, CallbackSteps()) && |Run(s, CallbackSteps()).entries| == 1
            && Run(s, CallbackSteps()).entries[0].conn.reports == [true, false, false]
  {
    var s7 := Alone(config, Quiet(LoopSpec.Handling, [], Some(Dispatch(0, HANGUP, AtHangup))), UP);
    var s8 := After(s7, Callback(BASE, false, Connection.Took(0)));
    assert s8.entries[0].io == BASE && s8.entries[0].conn == Connection.HandleClose(UP) && |s8.loops| == 1;
    assert s8.loops[BASE].dispatch == Some(Dispatch(0, HANGUP, AtRead));
    var s9 := After(s8, Callback(BASE, true, Connection.Took(0)));
    assert s9.entries[0].conn.reports == [true, false, false];
    Extend(s8, Callback(BASE, true, Connection.Took(0)), []);
    Extend(s7, Callback(BASE, false, Connection.Took(0)), [Callback(BASE, true, Connection.Took(0))] + []);
  }

  lemma {:induction false} RunAppend(s: Server, a: seq<Step>, b: seq<Step>)
    requires Runs(s, a) && Runs(Run(s, a), b)
    ensures Runs(s, a + b) && Run(s, a + b) == Run(Run(s, a), b)
    decreases a
  {
    hide Allowed, After;
    if a == [] {
      assert a + b == b;
    } else {
      RunAppend(After(s, a[0]), a[1..], b);
      assert (a + b)[1..] == a[1..] + b;
    }
  }

  function DoubleCloseSteps(): seq<Step> { AcceptSteps() + (IdleSteps() + (HangupSteps() + CallbackSteps())) }

  // A run from the start of a server of one loop, in which the user hears DOWN twice.
  lemma DoubleCloseHappens(config: Connection.Config)
    ensures Runs(Start(config, 1), DoubleCloseSteps())
    ensures !NeverClosesTwice(Start(config, 1), DoubleCloseSteps())
    ensures var s := Run(Start(config, 1), DoubleCloseSteps());
            |s.entries| == 1 && s.entries[0].conn.reports == [true, false, false] && !Safe(s)
  {
    hide Runs, Run, NeverClosesTwice, Safe, AcceptSteps, IdleSteps, HangupSteps, CallbackSteps, Start;
    Accepts(config);
    Idles(config);
    HangsUp(config);
    ClosesAndReads(config);
    var s0 := Start(config, 1);
    var s2 := Run(s0, AcceptSteps());
    var s5 := Run(s2, IdleSteps());
    RunAppend(s5, HangupSteps(), CallbackSteps());
    RunAppend(s2, IdleSteps(), HangupSteps() + CallbackSteps());
    RunAppend(s0, AcceptSteps(), IdleSteps() + (HangupSteps() + CallbackSteps()));
    var s9 := Run(s0, DoubleCloseSteps());
    DownsCounted();
    assert !OneDownEach(s9);
    SafeIffNeverClosesTwice(config, 1, DoubleCloseSteps());
    OneDownIffNeverClosesTwice(config, 1, DoubleCloseSteps());
  }
}
