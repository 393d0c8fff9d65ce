/**
 The event loop's hand-over of functors between threads, as a state machine.

 The loop thread alternates between polling, handling events and running the
 functors it has swapped out of the shared vector.  Any number of other threads
 push functors and then write to the eventfd, as two separate steps that may be
 interleaved with everything the loop does; the loop thread, too, may push while
 it handles events (no eventfd write: the functors run right after) or while it
 runs functors (callingPendingFunctors_ is set: it writes).
 */
module LoopSpec {
  // AtPoll: in epoll_wait.  Handling: calling the active channels' handlers.
  // Calling: callingPendingFunctors_ set, vector not yet swapped.  Running: after the swap.
  datatype Phase = AtPoll | Handling | Calling | Running

  // The counter of an eventfd stops one short of 2^64 - 1.
  const EVENTFD_MAX: nat := 0xffff_ffff_ffff_fffe

  datatype LoopState<F> = LoopState(
    phase: Phase,
    counter: nat,       // the eventfd
    woken: bool,        // the wakeup channel is among the active ones, not yet handled
    pending: seq<F>,    // pendingFunctors_
    batch: seq<F>,      // swapped out, not yet started
    owes: bool,         // the loop thread has pushed and must still write
    writers: nat,       // other threads that have pushed and must still write
    started: seq<F>,    // functors of earlier batches and this one, in the order started
    enqueued: seq<F>)   // every functor ever pushed, in order
  {
    function Written(): LoopState<F> {
      this.(counter := if counter < EVENTFD_MAX then counter + 1 else counter)
    }

    function Pushed(f: F): LoopState<F> {
      this.(pending := pending + [f], enqueued := enqueued + [f])
    }

    function Swapped(): LoopState<F> {
      this.(phase := Running, batch := pending, pending := [])
    }

    function Taken(): LoopState<F>
      requires batch != []
    {
      this.(started := started + [batch[0]], batch := batch[1..])
    }

    // queueInLoop called on the loop's own thread.
    function QueuedHere(f: F): LoopState<F> {
      if phase.Calling? || phase.Running? then Pushed(f).Written() else Pushed(f)
    }

    // The locked part of queueInLoop called on another thread.
    function QueuedElsewhere(f: F): LoopState<F> {
      Pushed(f).(writers := writers + 1)
    }
  }

  datatype Step<F> =
    | PushElsewhere(f: F)   // another thread: the locked push of queueInLoop
    | WriteElsewhere        // another thread: wakeup()
    | PushHere(f: F)        // the loop thread, in a handler or in a functor
    | WriteHere             // the loop thread: wakeup()
    | PollReturns           // an event or the timeout
    | DrainWakeup           // EventLoop::handleRead
    | BeginCalling          // all active channels handled
    | Swap
    | TakeNext              // start the next functor of the batch
    | EndBatch

  predicate Enabled<F>(s: LoopState<F>, step: Step<F>) {
    match step
    case PushElsewhere(_) => true
    case WriteElsewhere => s.writers > 0
    case PushHere(_) => (s.phase.Handling? || s.phase.Running?) && !s.owes
    case WriteHere => s.owes
    case PollReturns => s.phase.AtPoll?
    case DrainWakeup => s.phase.Handling? && s.woken && !s.owes
    case BeginCalling => s.phase.Handling? && !s.woken && !s.owes
    case Swap => s.phase.Calling?
    case TakeNext => s.phase.Running? && s.batch != [] && !s.owes
    case EndBatch => s.phase.Running? && s.batch == [] && !s.owes
  }

  function Next<F>(s: LoopState<F>, step: Step<F>): LoopState<F>
    requires Enabled(s, step)
  {
    match step
    case PushElsewhere(f) => s.QueuedElsewhere(f)
    case WriteElsewhere => s.Written().(writers := s.writers - 1)
    case PushHere(f) => s.Pushed(f).(owes := s.phase.Running?)
    case WriteHere => s.Written().(owes := false)
    case PollReturns => s.(phase := Handling, woken := s.counter > 0)
    case DrainWakeup => s.(counter := 0, woken := false)
    case BeginCalling => s.(phase := Calling)
    case Swap => s.Swapped()
    case TakeNext => s.Taken()
    case EndBatch => s.(phase := AtPoll)
  }

  function Fresh<F>(): LoopState<F> {
    LoopState(AtPoll, 0, false, [], [], false, 0, [], [])
  }

  predicate Runs<F>(s: LoopState<F>, steps: seq<Step<F>>)
    decreases steps
  {
    steps == [] || (Enabled(s, steps[0]) && Runs(Next(s, steps[0]), steps[1..]))
  }

  function Run<F>(s: LoopState<F>, steps: seq<Step<F>>): LoopState<F>
    requires Runs(s, steps)
    decreases steps
  {
    if steps == [] then s else Run(Next(s, steps[0]), steps[1..])
  }

  // ----- Safety -----

  // Past the swap, and at poll, a pending functor has rung the bell or is about to.
  ghost predicate NoLostWakeup<F>(s: LoopState<F>) {
    (s.phase.Running? || s.phase.AtPoll?) && s.pending != [] ==> s.counter > 0 || s.writers > 0 || s.owes
  }

  // Started, swapped and pending functors are the enqueue history, in order.
  ghost predicate Conserved<F>(s: LoopState<F>) {
    s.enqueued == s.started + s.batch + s.pending
  }

  ghost predicate Inv<F>(s: LoopState<F>) {
    && NoLostWakeup(s)
    && Conserved(s)
    && (s.owes ==> s.phase.Running?)
    && (!s.phase.Running? ==> s.batch == [])
    && (s.woken ==> s.phase.Handling? && s.counter > 0)
    && s.counter <= EVENTFD_MAX
  }

  lemma NextKeeps<F>(s: LoopState<F>, step: Step<F>)
    requires Inv(s) && Enabled(s, step)
    ensures Inv(Next(s, step))
    ensures var t := Next(s, step); s.started <= t.started && s.enqueued <= t.enqueued
  {
    if step.TakeNext? {
      assert s.started + s.batch == (s.started + [s.batch[0]]) + s.batch[1..];
    }
  }

  lemma {:induction false} RunKeeps<F>(s: LoopState<F>, steps: seq<Step<F>>)
    requires Inv(s) && Runs(s, steps)
    ensures Inv(Run(s, steps))
    ensures var t := Run(s, steps); s.started <= t.started && s.enqueued <= t.enqueued
    decreases steps
  {
    if steps != [] {
      NextKeeps(s, steps[0]);
      RunKeeps(Next(s, steps[0]), steps[1..]);
    }
  }

  // In every run of every interleaving: no functor is lost, duplicated or overtaken, and the
  // loop never sleeps on pending functors without a wakeup being there or on its way.
  lemma LoopSafety<F>(steps: seq<Step<F>>)
    requires Runs(Fresh<F>(), steps)
    ensures var s := Run(Fresh<F>(), steps);
            && s.enqueued == s.started + s.batch + s.pending
            && (s.phase.AtPoll? && s.pending != [] ==> s.counter > 0 || s.writers > 0)
  {
    RunKeeps(Fresh<F>(), steps);
  }

  // Everything pending now belongs to the next batch that is swapped.
  lemma {:induction false} InNextBatch<F>(s: LoopState<F>, steps: seq<Step<F>>)
    requires Inv(s) && Runs(s, steps)
    requires exists i :: 0 <= i < |steps| && steps[i].Swap?
    ensures var t := Run(s, steps); s.enqueued <= t.started + t.batch
    decreases steps
  {
    var t := Next(s, steps[0]);
    NextKeeps(s, steps[0]);
    if steps[0].Swap? {
      PastSwap(t, steps[1..], |s.enqueued|);
    } else {
      var i :| 0 <= i < |steps| && steps[i].Swap?;
      assert steps[1..][i - 1].Swap?;
      InNextBatch(t, steps[1..]);
    }
  }

  // The first n functors, once swapped, stay in the batch or get started.
  lemma {:induction false} PastSwap<F>(s: LoopState<F>, steps: seq<Step<F>>, n: nat)
    requires Inv(s) && Runs(s, steps) && n <= |s.started + s.batch|
    ensures var t := Run(s, steps); n <= |t.started + t.batch| && s.enqueued[..n] <= t.started + t.batch
    decreases steps
  {
    if steps != [] {
      NextKeeps(s, steps[0]);
      var t := Next(s, steps[0]);
      assert s.enqueued[..n] == t.enqueued[..n];
      PastSwap(t, steps[1..], n);
    }
  }

  // queueInLoop as one step of its caller is its steps in a row.
  lemma QueuedIsSteps<F>(s: LoopState<F>, f: F)
    requires Inv(s)
    ensures s.QueuedElsewhere(f) == Next(s, PushElsewhere(f))
    ensures s.phase.Handling? && !s.owes ==> s.QueuedHere(f) == Next(s, PushHere(f)) && !s.QueuedHere(f).owes
    ensures s.phase.Running? && !s.owes ==>
              Enabled(Next(s, PushHere(f)), WriteHere) && s.QueuedHere(f) == Next(Next(s, PushHere(f)), WriteHere)
    // only what is queued while functors run rings the bell
    ensures s.phase.Handling? ==> s.QueuedHere(f).counter == s.counter
    ensures s.phase.Running? ==> s.QueuedHere(f).counter > 0
  {
  }

  // ----- The eventfd -----

  // The writes to the eventfd since it was last read, of which there had been `writes` before.
  function WritesSince<F>(steps: seq<Step<F>>, writes: nat): nat
    decreases steps
  {
    if steps == [] then writes
    else
      match steps[0]
      case WriteElsewhere => WritesSince(steps[1..], writes + 1)
      case WriteHere => WritesSince(steps[1..], writes + 1)
      case DrainWakeup => WritesSince(steps[1..], 0)
      case _ => WritesSince(steps[1..], writes)
  }

  function Saturated(writes: nat): nat {
    if writes < 18446744073709551614 then writes else 18446744073709551614
  }

  // Along every run the counter is the number of writes since the last read, as far as an
  // eventfd can count.
  lemma {:induction false} CounterIsWrites<F>(s: LoopState<F>, steps: seq<Step<F>>, writes: nat)
    requires Runs(s, steps) && s.counter == Saturated(writes)
    ensures Run(s, steps).counter == Saturated(WritesSince(steps, writes))
    decreases steps
  {
    if steps != [] {
      match steps[0] {
        case WriteElsewhere => CounterIsWrites(Next(s, steps[0]), steps[1..], writes + 1);
        case WriteHere => CounterIsWrites(Next(s, steps[0]), steps[1..], writes + 1);
        case DrainWakeup => CounterIsWrites(Next(s, steps[0]), steps[1..], 0);
        case _ => CounterIsWrites(Next(s, steps[0]), steps[1..], writes);
      }
    }
  }

  predicate NoWrite<F>(steps: seq<Step<F>>) {
    forall i :: 0 <= i < |steps| ==> !steps[i].WriteElsewhere? && !steps[i].WriteHere?
  }

  lemma {:induction false} NoWritesSince<F>(steps: seq<Step<F>>)
    requires NoWrite(steps)
    ensures WritesSince(steps, 0) == 0
    decreases steps
  {
    if steps != [] {
      assert forall i :: 0 <= i < |steps[1..]| ==> steps[1..][i] == steps[i + 1];
      NoWritesSince(steps[1..]);
    }
  }

  // After the wakeup has been handled the loop sleeps again: as long as nobody writes, the
  // eventfd stays unreadable.
  lemma SleepsAfterDrain<F>(s: LoopState<F>, steps: seq<Step<F>>)
    requires steps != [] && steps[0].DrainWakeup? && Runs(s, steps) && NoWrite(steps)
    ensures Run(s, steps).counter == 0 && !Run(s, steps).woken
    decreases steps
  {
    var t := Next(s, steps[0]);
    assert forall i :: 0 <= i < |steps[1..]| ==> steps[1..][i] == steps[i + 1];
    NoWritesSince(steps[1..]);
    CounterIsWrites(t, steps[1..], 0);
    NotWoken(t, steps[1..]);
  }

  lemma {:induction false} NotWoken<F>(s: LoopState<F>, steps: seq<Step<F>>)
    requires s.counter == 0 && !s.woken && Runs(s, steps) && NoWrite(steps)
    ensures !Run(s, steps).woken
    decreases steps
  {
    if steps != [] {
      assert forall i :: 0 <= i < |steps[1..]| ==> steps[1..][i] == steps[i + 1];
      NotWoken(Next(s, steps[0]), steps[1..]);
    }
  }

  // ----- Progress -----

  function Repeat<F>(step: Step<F>, n: nat): seq<Step<F>> {
    if n == 0 then [] else [step] + Repeat(step, n - 1)
  }

  // From a poll with the eventfd readable, the steps that start all pending functors ...
  function Woken<F>(n: nat): seq<Step<F>> {
    [PollReturns] + ([DrainWakeup] + ([BeginCalling] + ([Swap] + Repeat(TakeNext, n))))
  }

  // ... after some thread's write to the eventfd if it is not readable yet.
  function WakeAndRun<F>(s: LoopState<F>): seq<Step<F>> {
    if s.counter > 0 then Woken(|s.pending|) else [WriteElsewhere] + Woken(|s.pending|)
  }

  lemma {:induction false} TakesAll<F>(s: LoopState<F>, n: nat)
    requires s.phase.Running? && !s.owes && n == |s.batch|
    ensures Runs(s, Repeat(TakeNext, n))
    ensures Run(s, Repeat(TakeNext, n)).started == s.started + s.batch
    decreases n
  {
    if n > 0 {
      TakesAll(s.Taken(), n - 1);
      assert [s.batch[0]] + s.batch[1..] == s.batch;
      assert Repeat<F>(TakeNext, n)[1..] == Repeat(TakeNext, n - 1);
    }
  }

  lemma RunStep<F>(s: LoopState<F>, step: Step<F>, rest: seq<Step<F>>)
    requires Enabled(s, step) && Runs(Next(s, step), rest)
    ensures Runs(s, [step] + rest) && Run(s, [step] + rest) == Run(Next(s, step), rest)
  {
    assert ([step] + rest)[1..] == rest;
  }

  lemma WokenRuns<F>(s: LoopState<F>)
    requires Inv(s) && s.phase.AtPoll? && s.counter > 0
    ensures Runs(s, Woken(|s.pending|))
    ensures Run(s, Woken(|s.pending|)).started == s.enqueued
  {
    var takes := Repeat<F>(TakeNext, |s.pending|);
    assert s.started + s.batch + s.pending == s.started + s.pending;
    var s1 := Next(s, PollReturns);
    var s2 := Next(s1, DrainWakeup);
    var s3 := Next(s2, BeginCalling);
    TakesAll(Next(s3, Swap), |s.pending|);
    RunStep(s3, Swap, takes);
    RunStep(s2, BeginCalling, [Swap] + takes);
    RunStep(s1, DrainWakeup, [BeginCalling] + ([Swap] + takes));
    RunStep(s, PollReturns, [DrainWakeup] + ([BeginCalling] + ([Swap] + takes)));
  }

  // Without any other event and without waiting for the timeout, the wakeup gets through:
  // the poll returns because the eventfd is readable, and all pending functors start.
  lemma WakeupGetsThrough<F>(s: LoopState<F>)
    requires Inv(s) && s.phase.AtPoll? && s.pending != []
    ensures Runs(s, WakeAndRun(s))
    ensures Run(s, WakeAndRun(s)).started == s.enqueued
  {
    if s.counter > 0 {
      WokenRuns(s);
    } else {
      var t := Next(s, WriteElsewhere);
      WokenRuns(t);
      RunStep(s, WriteElsewhere, Woken(|s.pending|));
    }
  }
}
