/** Reactor::Loop: functors queued by any thread, run in batches by the loop thread, which other
    threads wake through an eventfd. `Step` cuts the threads at the lock, at the eventfd calls
    and at each functor; `LoopThread` is the code of the loop thread, proved to be a run. */
module EventLoop {
  import opened Basics

  /** Functors by identity; what one queues when it runs is a parameter of the loop thread. */
  type Functor = nat
  type Thread = nat

  /** An eventfd holds at most this; a write beyond it fails with EAGAIN. */
  const COUNTER_MAX: nat := 0xFFFF_FFFF_FFFF_FFFE

  /** Polling: in epoll_wait. Handling: in the event handlers, `wake` if the wakeup event is still
      to be handled. Draining: callFunctors_ is set, the queue not yet taken. Running: inside
      the batch, `inside` a functor once the first has begun, `owes` a write after its own push. */
  datatype Pc = Polling | Handling(wake: bool) | Draining | Running(inside: bool, owes: bool) | Stopped

  /** `batch` is the rest of the local vector in doFunctors, `between` the threads that have
      pushed (or set quit_) and not yet written to the eventfd. `pushed` (in the order of the
      lock), `executed` and `rounds` (returns of epoll_wait) are history. */
  datatype State = State(
    pc: Pc, functors: seq<Functor>, batch: seq<Functor>, counter: nat, between: set<Thread>, quit: bool,
    pushed: seq<Functor>, executed: seq<Functor>, rounds: nat)

  datatype Step =
    | Push(t: Thread, f: Functor)    // queueInLoop under the lock, from another thread
    | SetQuit(t: Thread)
    | Wake(t: Thread)                // its write to the eventfd
    | PollReturns(wake: bool)        // an event, or the timeout
    | HandlerPush(f: Functor)        // queueInLoop from an event handler: no wakeup
    | HandlerQuit
    | ReadWakeup                     // handleRead
    | HandlersDone
    | Swap
    | Invoke
    | FunctorPush(f: Functor)        // queueInLoop from a running functor
    | FunctorWake
    | FunctorQuit                    // quit() on the loop thread: no wakeup
    | BatchDone

  function Init(): State {
    State(Polling, [], [], 0, {}, false, [], [], 0)
  }

  predicate Enabled(s: State, step: Step) {
    match step
    case Push(t, _) => t !in s.between
    case SetQuit(t) => t !in s.between
    case Wake(t) => t in s.between
    case PollReturns(wake) => s.pc == Polling && (wake ==> s.counter > 0)
    case HandlerPush(_) => s.pc.Handling?
    case HandlerQuit => s.pc.Handling?
    case ReadWakeup => s.pc == Handling(true)
    case HandlersDone => s.pc == Handling(false)
    case Swap => s.pc == Draining
    case Invoke => s.pc.Running? && !s.pc.owes && s.batch != []
    case FunctorPush(_) => s.pc == Running(true, false)
    case FunctorWake => s.pc == Running(true, true)
    case FunctorQuit => s.pc == Running(true, false)
    case BatchDone => s.pc.Running? && !s.pc.owes && s.batch == []
  }

  function Pushed(s: State, f: Functor): State {
    s.(functors := s.functors + [f], pushed := s.pushed + [f])
  }

  function Bumped(counter: nat): nat {
    if counter < COUNTER_MAX then counter + 1 else counter
  }

  function Apply(s: State, step: Step): State
    requires Enabled(s, step)
  {
    match step
    case Push(t, f) => Pushed(s, f).(between := s.between + {t})
    case SetQuit(t) => s.(quit := true, between := s.between + {t})
    case Wake(t) => s.(counter := Bumped(s.counter), between := s.between - {t})
    case PollReturns(wake) => s.(pc := Handling(wake), rounds := s.rounds + 1)
    case HandlerPush(f) => Pushed(s, f)
    case HandlerQuit => s.(quit := true)
    case ReadWakeup => s.(counter := 0, pc := Handling(false))
    case HandlersDone => s.(pc := Draining)
    case Swap => s.(pc := Running(false, false), batch := s.functors, functors := [])
    case Invoke => s.(pc := Running(true, false), executed := s.executed + [s.batch[0]], batch := s.batch[1..])
    case FunctorPush(f) => Pushed(s, f).(pc := Running(true, true))
    case FunctorWake => s.(counter := Bumped(s.counter), pc := Running(true, false))
    case FunctorQuit => s.(quit := true)
    case BatchDone => s.(pc := if s.quit then Stopped else Polling)
  }

  predicate Legal(s: State, steps: seq<Step>)
    decreases |steps|
  {
    steps == [] || (Enabled(s, steps[0]) && Legal(Apply(s, steps[0]), steps[1..]))
  }

  function Run(s: State, steps: seq<Step>): State
    requires Legal(s, steps)
    decreases |steps|
  {
    if steps == [] then s else Run(Apply(s, steps[0]), steps[1..])
  }

  // ---- The invariant -------------------------------------------------------------------------

  /** Every functor pushed is executed, in the batch or in the queue: once, in lock order. */
  predicate ExactlyOnce(s: State) {
    s.pushed == s.executed + s.batch + s.functors
  }

  /** A functor queued since the last swap comes with a wakeup, delivered or on its way. */
  predicate NoLostWakeup(s: State) {
    (s.pc.Running? || s.pc == Polling) && s.functors != [] ==>
      s.counter > 0 || s.between != {} || (s.pc.Running? && s.pc.owes)
  }

  /** Nor is a quit() slept through. */
  predicate NoLostQuit(s: State) {
    s.pc == Polling && s.quit ==> s.counter > 0 || s.between != {}
  }

  predicate Inv(s: State) {
    ExactlyOnce(s) && NoLostWakeup(s) && NoLostQuit(s) && (s.batch != [] ==> s.pc.Running?)
  }

  lemma StepKeepsInv(s: State, step: Step)
    requires Inv(s) && Enabled(s, step)
    ensures Inv(Apply(s, step))
  {
    match step
    case Push(t, f) =>
      assert t in s.between + {t};
      Assoc(s.executed + s.batch, s.functors, [f]);
    case HandlerPush(f) => Assoc(s.executed + s.batch, s.functors, [f]);
    case FunctorPush(f) => Assoc(s.executed + s.batch, s.functors, [f]);
    case SetQuit(t) => assert t in s.between + {t};
    case Invoke =>
      assert s.batch == [s.batch[0]] + s.batch[1..];
      Assoc(s.executed, [s.batch[0]], s.batch[1..]);
    case Swap => assert s.executed + [] + s.functors == s.executed + s.functors + [];
    case _ =>
  }

  lemma {:induction false} RunKeepsInv(s: State, steps: seq<Step>)
    requires Inv(s) && Legal(s, steps)
    ensures Inv(Run(s, steps))
    decreases |steps|
  {
    if steps != [] {
      StepKeepsInv(s, steps[0]);
      RunKeepsInv(Apply(s, steps[0]), steps[1..]);
    }
  }

  /** In every run, what has been executed is a prefix of what has been pushed, and the loop can
      block in epoll_wait with nothing on its way to it only if everything has been executed and
      no one has called quit(). */
  lemma SleepsOnlyWhenDone(steps: seq<Step>)
    requires Legal(Init(), steps)
    ensures var s := Run(Init(), steps);
            && s.executed <= s.pushed
            && (s.pc == Polling && s.counter == 0 && s.between == {} ==> s.executed == s.pushed && !s.quit)
  {
    RunKeepsInv(Init(), steps);
    var s := Run(Init(), steps);
    assert s.executed <= s.executed + s.batch <= s.pushed;
    if s.pc == Polling && s.counter == 0 && s.between == {} {
      assert s.functors == [] && s.batch == [];
    }
  }

  // ---- Promptness ----------------------------------------------------------------------------

  /** How far the loop has got with what was pushed when it was polling in round `n`. */
  predicate Progress(was: seq<Functor>, n: nat, s: State) {
    && n <= s.rounds
    && was <= s.pushed
    && (s.rounds == n ==> s.pc == Polling)
    && (s.rounds > n && s.pc.Running? ==> was <= s.executed + s.batch)
    && (s.rounds > n && (s.pc == Polling || s.pc == Stopped) ==> was <= s.executed)
    && (s.rounds > n + 1 ==> was <= s.executed)
  }

  lemma StepKeepsProgress(was: seq<Functor>, n: nat, s: State, step: Step)
    requires Inv(s) && Progress(was, n, s) && Enabled(s, step)
    ensures Progress(was, n, Apply(s, step))
  {
    match step
    case Invoke =>
      assert s.batch == [s.batch[0]] + s.batch[1..];
      Assoc(s.executed, [s.batch[0]], s.batch[1..]);
    case BatchDone => assert s.executed + s.batch == s.executed;
    case Swap => assert s.executed + s.batch + s.functors == s.executed + s.functors;
    case _ =>
  }

  lemma {:induction false} RunKeepsProgress(was: seq<Functor>, n: nat, s: State, steps: seq<Step>)
    requires Inv(s) && Progress(was, n, s) && Legal(s, steps)
    ensures Progress(was, n, Run(s, steps))
    decreases |steps|
  {
    if steps != [] {
      StepKeepsInv(s, steps[0]);
      StepKeepsProgress(was, n, s, steps[0]);
      RunKeepsProgress(was, n, Apply(s, steps[0]), steps[1..]);
    }
  }

  /** Whatever had been pushed when epoll_wait was entered has been executed, in order, when the
      loop next enters it or stops. */
  lemma PushedBeforePollRunsInRound(before: seq<Step>, after: seq<Step>)
    requires Legal(Init(), before) && Run(Init(), before).pc == Polling
    requires Legal(Run(Init(), before), after)
    ensures var s, t := Run(Init(), before), Run(Run(Init(), before), after);
            t.rounds > s.rounds && (t.pc == Polling || t.pc == Stopped) ==> s.pushed <= t.executed
  {
    RunKeepsInv(Init(), before);
    var s := Run(Init(), before);
    RunKeepsProgress(s.pushed, s.rounds, s, after);
  }

  /** How far a loop that was told to quit in state `was` has got. */
  predicate Stopping(was: State, s: State) {
    && s.quit
    && s.rounds <= was.rounds + (if was.pc == Polling then 1 else 0)
    && (s.pc == Polling ==> was.pc == Polling && s.rounds == was.rounds)
  }

  /** After quit() the loop returns from epoll_wait at most once, and only if it was in it; it
      never enters it again. */
  lemma {:induction false} QuitStops(was: State, s: State, steps: seq<Step>)
    requires Stopping(was, s) && Legal(s, steps)
    ensures Stopping(was, Run(s, steps))
    decreases |steps|
  {
    if steps != [] {
      QuitStops(was, Apply(s, steps[0]), steps[1..]);
    }
  }

  // ---- The loop thread -----------------------------------------------------------------------

  lemma {:induction false} RunSnoc(s: State, steps: seq<Step>, step: Step)
    requires Legal(s, steps) && Enabled(Run(s, steps), step)
    ensures Legal(s, steps + [step]) && Run(s, steps + [step]) == Apply(Run(s, steps), step)
    decreases |steps|
  {
    if steps == [] {
      assert [] + [step] == [step] && [step][1..] == [];
    } else {
      RunSnoc(Apply(s, steps[0]), steps[1..], step);
      assert (steps + [step])[1..] == steps[1..] + [step];
    }
  }

  ghost predicate Reaches(s: State, t: State) {
    exists steps :: Legal(s, steps) && Run(s, steps) == t
  }

  lemma ReachesSelf(s: State)
    ensures Reaches(s, s)
  {
    assert Legal(s, []) && Run(s, []) == s;
  }

  lemma ReachesStep(s: State, t: State, step: Step)
    requires Reaches(s, t) && Enabled(t, step)
    ensures Reaches(s, Apply(t, step))
  {
    var steps :| Legal(s, steps) && Run(s, steps) == t;
    RunSnoc(s, steps, step);
  }

  lemma ReachesSwap(s: State, t: State)
    requires Reaches(s, t) && t.pc == Handling(false)
    ensures Reaches(s, t.(pc := Running(false, false), batch := t.functors, functors := []))
  {
    ReachesStep(s, t, HandlersDone);
    ReachesStep(s, Apply(t, HandlersDone), Swap);
  }

  lemma ReachesPush(s: State, t: State, f: Functor)
    requires Reaches(s, t) && t.pc == Running(true, false)
    ensures Reaches(s, Pushed(t, f).(counter := Bumped(t.counter)))
  {
    ReachesStep(s, t, FunctorPush(f));
    ReachesStep(s, Apply(t, FunctorPush(f)), FunctorWake);
  }

  /** What a callback does to the loop while it runs: the functors it queues, whether it quits. */
  datatype Effect = Effect(queues: seq<Functor>, quits: bool)

  /** What the functors of a batch queue, in order. */
  function Spawned(spawn: Functor -> Effect, batch: seq<Functor>): seq<Functor> {
    if batch == [] then [] else spawn(batch[0]).queues + Spawned(spawn, batch[1..])
  }

  predicate AnyQuits(spawn: Functor -> Effect, batch: seq<Functor>) {
    exists i | 0 <= i < |batch| :: spawn(batch[i]).quits
  }

  lemma {:induction false} SpawnedSnoc(spawn: Functor -> Effect, batch: seq<Functor>, f: Functor)
    ensures Spawned(spawn, batch + [f]) == Spawned(spawn, batch) + spawn(f).queues
    ensures AnyQuits(spawn, batch + [f]) <==> AnyQuits(spawn, batch) || spawn(f).quits
  {
    assert (batch + [f])[|batch|] == f;
    if AnyQuits(spawn, batch) {
      var i :| 0 <= i < |batch| && spawn(batch[i]).quits;
      assert (batch + [f])[i] == batch[i];
    }
    if batch == [] {
      assert batch + [f] == [f] && [f][1..] == [];
    } else {
      SpawnedSnoc(spawn, batch[1..], f);
      assert (batch + [f])[1..] == batch[1..] + [f];
      Assoc(spawn(batch[0]).queues, Spawned(spawn, batch[1..]), spawn(f).queues);
    }
  }

  class LoopThread {
    var functors: seq<Functor>
    var callFunctors: bool
    var quit: bool
    /** The eventfd. */
    var wakeupFd: nat
    ghost var pushed: seq<Functor>
    ghost var executed: seq<Functor>
    ghost var rounds: nat

    ghost function At(pc: Pc, batch: seq<Functor>): State
      reads this
    {
      State(pc, functors, batch, wakeupFd, {}, quit, pushed, executed, rounds)
    }

    constructor ()
      ensures At(Polling, []) == Init() && !callFunctors
    {
      functors, callFunctors, quit, wakeupFd := [], false, false, 0;
      pushed, executed, rounds := [], [], 0;
    }

    method Wakeup()
      modifies this`wakeupFd
      ensures wakeupFd == Bumped(old(wakeupFd))
    {
      wakeupFd := if wakeupFd < COUNTER_MAX then wakeupFd + 1 else wakeupFd;
    }

    /** queueInLoop on the loop thread. */
    method QueueInLoop(f: Functor)
      modifies this`functors, this`pushed, this`wakeupFd
      ensures functors == old(functors) + [f] && pushed == old(pushed) + [f]
      ensures wakeupFd == if callFunctors then Bumped(old(wakeupFd)) else old(wakeupFd)
    {
      functors := functors + [f];
      pushed := pushed + [f];
      if callFunctors {
        Wakeup();
      }
    }

    method Quit()
      modifies this`quit
      ensures quit
    {
      quit := true;
    }

    /** What a functor does while it runs; each push is followed by its wakeup. */
    method RunFunctor(effect: Effect, ghost start: State, ghost batch: seq<Functor>)
      requires callFunctors && Reaches(start, At(Running(true, false), batch))
      modifies this`functors, this`pushed, this`wakeupFd, this`quit
      ensures functors == old(functors) + effect.queues && quit == (old(quit) || effect.quits)
      ensures Reaches(start, At(Running(true, false), batch))
    {
      for i := 0 to |effect.queues|
        invariant functors == old(functors) + effect.queues[..i] && quit == old(quit)
        invariant Reaches(start, At(Running(true, false), batch))
      {
        ReachesPush(start, At(Running(true, false), batch), effect.queues[i]);
        QueueInLoop(effect.queues[i]);
        assert effect.queues[..i + 1] == effect.queues[..i] + [effect.queues[i]];
      }
      assert effect.queues[..|effect.queues|] == effect.queues;
      if effect.quits {
        ReachesStep(start, At(Running(true, false), batch), FunctorQuit);
        Quit();
      }
    }

    /** functors[i](), with what it does. */
    method Invoke(f: Functor, effect: Effect, ghost start: State, ghost inside: bool, ghost rest: seq<Functor>)
      requires callFunctors && Reaches(start, At(Running(inside, false), [f] + rest))
      modifies this`functors, this`pushed, this`executed, this`wakeupFd, this`quit
      ensures functors == old(functors) + effect.queues && executed == old(executed) + [f]
      ensures quit == (old(quit) || effect.quits)
      ensures Reaches(start, At(Running(true, false), rest))
    {
      ReachesStep(start, At(Running(inside, false), [f] + rest), Step.Invoke);
      assert ([f] + rest)[1..] == rest;
      executed := executed + [f];
      RunFunctor(effect, start, rest);
    }

    /** The batch is exactly what was queued at the swap; what its functors queue is left for the
        next round, and a quit() of one of them does not cut it short. */
    method DoFunctors(spawn: Functor -> Effect, ghost start: State)
      requires !callFunctors && Reaches(start, At(Handling(false), []))
      modifies this`functors, this`callFunctors, this`pushed, this`executed, this`wakeupFd, this`quit
      ensures !callFunctors && executed == old(executed) + old(functors)
      ensures functors == Spawned(spawn, old(functors))
      ensures quit == (old(quit) || AnyQuits(spawn, old(functors)))
      ensures Reaches(start, At(if quit then Stopped else Polling, []))
    {
      ReachesSwap(start, At(Handling(false), []));
      callFunctors := true;
      var batch := functors;
      functors := [];
      ghost var inside := false;
      for i := 0 to |batch|
        invariant callFunctors && executed == old(executed) + batch[..i]
        invariant functors == Spawned(spawn, batch[..i]) && quit == (old(quit) || AnyQuits(spawn, batch[..i]))
        invariant Reaches(start, At(Running(inside, false), batch[i..]))
      {
        assert batch[i..] == [batch[i]] + batch[i + 1..] && batch[..i + 1] == batch[..i] + [batch[i]];
        SpawnedSnoc(spawn, batch[..i], batch[i]);
        Invoke(batch[i], spawn(batch[i]), start, inside, batch[i + 1..]);
        inside := true;
      }
      assert batch[|batch|..] == [] && batch[..|batch|] == batch && batch[..0] == [];
      ReachesStep(start, At(Running(inside, false), []), BatchDone);
      callFunctors := false;
    }

    /** A handler of an active event, other than the wakeup event. */
    method HandleEvent(effect: Effect, ghost start: State, ghost wake: bool)
      requires !callFunctors && Reaches(start, At(Handling(wake), []))
      modifies this`functors, this`pushed, this`wakeupFd, this`quit
      ensures functors == old(functors) + effect.queues && wakeupFd == old(wakeupFd)
      ensures quit == (old(quit) || effect.quits)
      ensures Reaches(start, At(Handling(wake), []))
    {
      for i := 0 to |effect.queues|
        invariant functors == old(functors) + effect.queues[..i] && wakeupFd == old(wakeupFd) && quit == old(quit)
        invariant Reaches(start, At(Handling(wake), []))
      {
        ReachesStep(start, At(Handling(wake), []), HandlerPush(effect.queues[i]));
        QueueInLoop(effect.queues[i]);
        assert effect.queues[..i + 1] == effect.queues[..i] + [effect.queues[i]];
      }
      assert effect.queues[..|effect.queues|] == effect.queues;
      if effect.quits {
        ReachesStep(start, At(Handling(wake), []), HandlerQuit);
        Quit();
      }
    }

    /** handleRead of the wakeup event. */
    method HandleRead(ghost start: State)
      requires Reaches(start, At(Handling(true), []))
      modifies this`wakeupFd
      ensures wakeupFd == 0 && Reaches(start, At(Handling(false), []))
    {
      ReachesStep(start, At(Handling(true), []), ReadWakeup);
      wakeupFd := 0;
    }

    /** The handlers in the order of the active events; the wakeup event is somewhere among them,
        or not at all. Their effects are taken together on either side of it. */
    method HandleEvents(before: Effect, wake: bool, after: Effect, ghost start: State)
      requires !callFunctors && Reaches(start, At(Handling(wake), []))
      modifies this`functors, this`pushed, this`wakeupFd, this`quit
      ensures functors == old(functors) + before.queues + after.queues
      ensures wakeupFd == if wake then 0 else old(wakeupFd)
      ensures quit == (old(quit) || before.quits || after.quits)
      ensures Reaches(start, At(Handling(false), []))
    {
      HandleEvent(before, start, wake);
      if wake {
        HandleRead(start);
      }
      HandleEvent(after, start, false);
    }

    /** One turn of loop(): epoll_wait returns, the handlers run, then the batch. */
    method Iterate(before: Effect, wake: bool, after: Effect, spawn: Functor -> Effect)
      requires !callFunctors && (wake ==> wakeupFd > 0)
      modifies this
      ensures var batch := old(functors) + before.queues + after.queues;
              && executed == old(executed) + batch && functors == Spawned(spawn, batch)
              && quit == (old(quit) || before.quits || after.quits || AnyQuits(spawn, batch))
      ensures !callFunctors && rounds == old(rounds) + 1
      ensures Reaches(old(At(Polling, [])), At(if quit then Stopped else Polling, []))
    {
      ghost var start := At(Polling, []);
      ReachesSelf(start);
      ReachesStep(start, start, PollReturns(wake));
      rounds := rounds + 1;
      HandleEvents(before, wake, after, start);
      DoFunctors(spawn, start);
    }
  }
}
