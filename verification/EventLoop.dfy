/**
 The EventLoop object: the shared vector of functors, the flag that says they are
 being run, and the eventfd.  Every method is proved to make steps of LoopSpec, so
 the lemmas about runs of that machine hold for the object.

 A functor is known by what matters here: which functors it queues when it runs.
 */
module EventLoops {
  import opened LoopSpec

  datatype Functor = Functor(id: nat, queues: seq<Functor>)

  class EventLoop {
    var pendingFunctors: seq<Functor>
    var callingPendingFunctors: bool
    var wakeupCounter: nat
    ghost var phase: Phase
    ghost var woken: bool
    ghost var batch: seq<Functor>
    ghost var owes: bool
    ghost var writers: nat
    ghost var started: seq<Functor>
    ghost var enqueued: seq<Functor>

    ghost function View(): LoopState<Functor>
      reads this
    {
      LoopState(phase, wakeupCounter, woken, pendingFunctors, batch, owes, writers, started, enqueued)
    }

    ghost predicate Valid()
      reads this
    {
      && Inv(View())
      && (callingPendingFunctors <==> phase.Calling? || phase.Running?)
    }

    // The loop's own thread is between two statements of a handler or of a functor.
    ghost predicate LoopThreadFree()
      reads this
    {
      (phase.Handling? || phase.Running?) && !owes
    }

    constructor ()
      ensures Valid() && View() == Fresh<Functor>()
    {
      pendingFunctors, callingPendingFunctors, wakeupCounter := [], false, 0;
      phase, woken, batch, owes, writers, started, enqueued := AtPoll, false, [], false, 0, [], [];
    }

    // The part of queueInLoop under the lock.
    method Push(cb: Functor, inLoopThread: bool)
      requires Valid() && (inLoopThread ==> LoopThreadFree())
      modifies this
      ensures Valid()
      ensures View() == Next(old(View()), if inLoopThread then PushHere(cb) else PushElsewhere(cb))
      ensures callingPendingFunctors == old(callingPendingFunctors)
    {
      ghost var step := if inLoopThread then PushHere(cb) else PushElsewhere(cb);
      NextKeeps(View(), step);
      pendingFunctors := pendingFunctors + [cb];
      enqueued := enqueued + [cb];
      owes := if inLoopThread then phase.Running? else owes;
      writers := if inLoopThread then writers else writers + 1;
    }

    // The eventfd write; a full counter refuses it (and is readable all the same).
    method Wakeup(inLoopThread: bool)
      requires Valid() && (if inLoopThread then owes else writers > 0)
      modifies this
      ensures Valid()
      ensures View() == Next(old(View()), if inLoopThread then WriteHere else WriteElsewhere)
      ensures wakeupCounter == Saturated(old(wakeupCounter) + 1)
      ensures callingPendingFunctors == old(callingPendingFunctors)
    {
      NextKeeps(View(), if inLoopThread then WriteHere else WriteElsewhere);
      if wakeupCounter < EVENTFD_MAX {
        wakeupCounter := wakeupCounter + 1;
      }
      owes := if inLoopThread then false else owes;
      writers := if inLoopThread then writers else writers - 1;
    }

    method QueueInLoop(cb: Functor, inLoopThread: bool)
      requires Valid() && (inLoopThread ==> LoopThreadFree())
      modifies this
      ensures Valid() && callingPendingFunctors == old(callingPendingFunctors)
      ensures inLoopThread ==> View() == old(View()).QueuedHere(cb) && LoopThreadFree()
      ensures !inLoopThread ==> View() == old(View()).Pushed(cb).Written()
    {
      Push(cb, inLoopThread);
      if !inLoopThread || callingPendingFunctors {
        Wakeup(inLoopThread);
      }
    }

    // Running a functor queues what it queues, in order.
    method Execute(f: Functor)
      requires Valid() && LoopThreadFree()
      modifies this
      ensures Valid() && LoopThreadFree() && callingPendingFunctors == old(callingPendingFunctors)
      ensures pendingFunctors == old(pendingFunctors) + f.queues && enqueued == old(enqueued) + f.queues
      ensures phase == old(phase) && batch == old(batch) && started == old(started)
    {
      for i := 0 to |f.queues|
        invariant Valid() && LoopThreadFree() && callingPendingFunctors == old(callingPendingFunctors)
        invariant pendingFunctors == old(pendingFunctors) + f.queues[..i]
        invariant enqueued == old(enqueued) + f.queues[..i]
        invariant phase == old(phase) && batch == old(batch) && started == old(started)
      {
        QueueInLoop(f.queues[i], true);
      }
    }

    method RunInLoop(cb: Functor, inLoopThread: bool)
      requires Valid() && (inLoopThread ==> LoopThreadFree())
      modifies this
      ensures Valid()
      // on the loop's thread the functor runs at once and is never queued itself
      ensures inLoopThread ==> enqueued == old(enqueued) + cb.queues && started == old(started)
      ensures !inLoopThread ==> View() == old(View()).Pushed(cb).Written()
    {
      if inLoopThread {
        Execute(cb);
      } else {
        QueueInLoop(cb, false);
      }
    }

    method HandleRead()
      requires Valid() && Enabled(View(), DrainWakeup)
      modifies this
      ensures Valid() && View() == Next(old(View()), DrainWakeup)
      ensures wakeupCounter == 0 && pendingFunctors == old(pendingFunctors)
    {
      NextKeeps(View(), DrainWakeup);
      wakeupCounter := 0;
      woken := false;
    }

    // Other threads queue `cbs` while the loop thread is busy elsewhere.
    method Interfere(cbs: seq<Functor>)
      requires Valid()
      modifies this
      ensures Valid() && callingPendingFunctors == old(callingPendingFunctors)
      ensures pendingFunctors == old(pendingFunctors) + cbs && enqueued == old(enqueued) + cbs
      ensures phase == old(phase) && batch == old(batch) && started == old(started) && owes == old(owes)
    {
      for i := 0 to |cbs|
        invariant Valid() && callingPendingFunctors == old(callingPendingFunctors)
        invariant pendingFunctors == old(pendingFunctors) + cbs[..i]
        invariant enqueued == old(enqueued) + cbs[..i]
        invariant phase == old(phase) && batch == old(batch) && started == old(started) && owes == old(owes)
      {
        QueueInLoop(cbs[i], false);
      }
    }

    // What is queued while a batch runs: before each functor what the other threads
    // bring (`arrivals`), then what the functor itself queues.
    static function QueuedDuring(functors: seq<Functor>, arrivals: seq<seq<Functor>>): seq<Functor>
      requires |functors| == |arrivals|
    {
      if functors == [] then []
      else QueuedDuring(functors[..|functors| - 1], arrivals[..|functors| - 1])
           + (arrivals[|functors| - 1] + functors[|functors| - 1].queues)
    }

    // One turn of the loop in doPendingFunctors: others push, then the next functor runs.
    method RunNext(functor: Functor, arrived: seq<Functor>)
      requires Valid() && LoopThreadFree() && phase.Running?
      requires batch != [] && batch[0] == functor
      modifies this
      ensures Valid() && LoopThreadFree() && phase.Running?
      ensures batch == old(batch)[1..] && started == old(started) + [functor]
      ensures pendingFunctors == old(pendingFunctors) + (arrived + functor.queues)
      ensures enqueued == old(enqueued) + (arrived + functor.queues)
    {
      Interfere(arrived);
      NextKeeps(View(), TakeNext);
      started, batch := started + [functor], batch[1..];
      Execute(functor);
    }

    // The swap, with callingPendingFunctors_ set before it.
    method TakeBatch() returns (functors: seq<Functor>)
      requires Valid() && Enabled(View(), BeginCalling)
      modifies this
      ensures Valid() && LoopThreadFree() && phase.Running?
      ensures functors == old(pendingFunctors) == batch && pendingFunctors == []
      ensures started == old(started) && enqueued == old(enqueued)
    {
      NextKeeps(View(), BeginCalling);
      callingPendingFunctors := true;
      phase := Calling;
      NextKeeps(View(), Swap);
      functors := pendingFunctors;
      pendingFunctors := [];
      batch, phase := functors, Running;
    }

    method DoPendingFunctors(arrivals: seq<seq<Functor>>)
      requires Valid() && Enabled(View(), BeginCalling)
      requires |arrivals| == |pendingFunctors|
      modifies this
      ensures Valid() && phase == AtPoll && !callingPendingFunctors
      // exactly the functors that were pending have run, in order ...
      ensures started == old(started) + old(pendingFunctors)
      // ... and what came in meanwhile waits, in order, for the next batch
      ensures pendingFunctors == QueuedDuring(old(pendingFunctors), arrivals)
      ensures enqueued == old(enqueued) + pendingFunctors
    {
      var functors := TakeBatch();
      var i := 0;
      while i < |functors|
        invariant 0 <= i <= |functors|
        invariant Valid() && LoopThreadFree() && phase.Running?
        invariant batch == functors[i..] && started == old(started) + functors[..i]
        invariant pendingFunctors == QueuedDuring(functors[..i], arrivals[..i])
        invariant enqueued == old(enqueued) + pendingFunctors
      {
        RunNext(functors[i], arrivals[i]);
        assert functors[..i + 1][..i] == functors[..i] && arrivals[..i + 1][..i] == arrivals[..i];
        i := i + 1;
      }
      assert functors[..i] == functors && arrivals[..i] == arrivals;
      NextKeeps(View(), EndBatch);
      callingPendingFunctors := false;
      phase := AtPoll;
    }
  }
}
