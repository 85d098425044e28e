/** The objects of web/service_manager_connection_impl.cc, with their mutual calls. Every method
    that is entered from outside does to the objects what ServiceManagerConnection says of its event. */
module ServiceManagerContext {
  import opened ServiceManagerConnection

  class MessageLoop {
    var alive: bool
    var queue: seq<IoTask>
    var observers: set<MessageLoopObserver>
    var created: nat
    var deleted: nat

    constructor ()
      ensures alive && queue == [] && observers == {} && created == deleted == 0
    {
      alive, queue, observers, created, deleted := true, [], {}, 0, 0;
    }
  }

  /** Owns itself: it is freed by its own ShutDown. */
  class MessageLoopObserver {
    const loop: MessageLoop
    const context: IOThreadContext
    /** The weak pointer to the context leads there while the context's generation is this one. */
    const generation: nat
    var isActive: bool
    var freed: bool

    constructor (context: IOThreadContext)
      modifies context.loop
      ensures this.context == context && loop == context.loop && generation == context.weakGeneration
      ensures isActive && !freed
      ensures loop.observers == old(context.loop.observers) + {this} && loop.created == old(context.loop.created) + 1
      ensures loop.alive == old(context.loop.alive) && loop.queue == old(context.loop.queue)
      ensures loop.deleted == old(context.loop.deleted)
    {
      this.loop, this.context, generation := context.loop, context, context.weakGeneration;
      isActive, freed := true, false;
      new;
      loop.observers := loop.observers + {this};
      loop.created := loop.created + 1;
    }

    /** `delete this`. */
    method Delete()
      requires !freed
      modifies this, loop
      ensures freed && isActive == old(isActive)
      ensures loop.observers == old(loop.observers) - {this} && loop.deleted == old(loop.deleted) + 1
      ensures loop.alive == old(loop.alive) && loop.queue == old(loop.queue) && loop.created == old(loop.created)
    {
      loop.observers := loop.observers - {this};
      loop.deleted := loop.deleted + 1;
      freed := true;
    }

    ghost predicate ContextReachable()
      reads this, context
    {
      generation == context.weakGeneration
    }

    /** Re-entered from the context's ShutDownOnIOThread, and then does nothing. */
    method ShutDown()
      requires !freed && context.loop == loop && this in loop.observers
      requires isActive && ContextReachable() ==> context.observer == this && context.CanShutDown()
      modifies this, loop, context
      decreases if isActive then 1 else 0, 0
      ensures !old(isActive) ==> unchanged(this) && unchanged(loop) && unchanged(context)
      ensures old(isActive) ==>
                freed && loop.observers == old(loop.observers) - {this} && loop.deleted == old(loop.deleted) + 1
      ensures loop.alive == old(loop.alive) && loop.queue == old(loop.queue) && loop.created == old(loop.created)
      ensures old(isActive && !ContextReachable()) ==> unchanged(context)
      ensures old(isActive && ContextReachable()) ==> context.WasShutDown()
    {
      if !isActive {
        return;
      }
      isActive := false;
      if generation == context.weakGeneration {
        context.ShutDownOnIOThread();
      }
      assert !freed;
      Delete();
    }

    method WillDestroyCurrentMessageLoop()
      requires !freed && context.loop == loop && this in loop.observers && isActive
      requires ContextReachable() ==> context.observer == this && context.CanShutDown()
      modifies this, loop, context
      ensures freed && loop.observers == old(loop.observers) - {this} && loop.deleted == old(loop.deleted) + 1
      ensures loop.alive == old(loop.alive) && loop.queue == old(loop.queue) && loop.created == old(loop.created)
      ensures if old(ContextReachable()) then context.WasShutDown() else unchanged(context)
    {
      ShutDown();
    }
  }

  /** A reference-counted object: `destroyed` once the last reference has gone. */
  class IOThreadContext {
    const loop: MessageLoop
    var owned: bool
    var started: bool
    var refs: nat
    var destroyed: bool
    var weakGeneration: nat
    var weakOutstanding: bool
    var bound: bool
    var bindingRefs: nat
    var factories: nat
    var observer: MessageLoopObserver?

    ghost function Abs(): Connection
      reads this, loop
    {
      Connection(owned, started, loop.alive, loop.queue, refs, destroyed, weakOutstanding, bound, bindingRefs,
                 factories, loop.observers != {}, loop.created, loop.deleted)
    }

    /** A registered observer is alive and active, so the assertion in WillDestroyCurrentMessageLoop
        holds; while the context exists the observer is the context's, and its weak pointer is good. */
    ghost predicate Valid()
      reads this, loop, loop.observers
    {
      && Settled(Abs())
      && (forall o | o in loop.observers :: o.context == this && o.loop == loop && o.isActive && !o.freed)
      && (forall o, o' | o in loop.observers && o' in loop.observers :: o == o')
      && (!destroyed ==> loop.observers == if observer == null then {} else {observer})
      && (forall o | o in loop.observers :: o.generation <= weakGeneration)
      && (forall o | o in loop.observers :: o.generation == weakGeneration <==> !destroyed)
    }

    constructor ()
      ensures Valid() && Abs() == Fresh && fresh(loop)
    {
      loop := new MessageLoop();
      owned, started, refs, destroyed := true, false, 1, false;
      weakGeneration, weakOutstanding, bound, bindingRefs, factories, observer := 0, false, false, 0, 0, null;
    }

    ghost predicate CanShutDown()
      reads this
    {
      !destroyed && 1 <= refs && bindingRefs <= refs
    }

    ghost predicate ObserverLinked()
      reads this, loop, observer
    {
      observer != null ==>
        && observer.context == this && observer.loop == loop && !observer.freed
        && observer in loop.observers && observer.generation <= weakGeneration
    }

    twostate predicate WasShutDown()
      reads this
    {
      && observer == null && weakGeneration > old(weakGeneration) && !weakOutstanding
      && !bound && bindingRefs == 0 && factories == 0
      && refs == old(refs) - old(bindingRefs) && (destroyed <==> refs == 0)
      && owned == old(owned) && started == old(started)
    }

    method InvalidateWeakPtrs()
      modifies `weakGeneration, `weakOutstanding
      ensures weakGeneration == old(weakGeneration) + 1 && !weakOutstanding
    {
      weakGeneration, weakOutstanding := weakGeneration + 1, false;
    }

    /** Gives up one reference; the last one runs the destructor. */
    method Release()
      requires !destroyed && 1 <= refs && bindingRefs < refs
      modifies `refs, `destroyed, `weakGeneration, `weakOutstanding, `bound, `factories
      ensures refs == old(refs) - 1 && (destroyed <==> refs == 0)
      ensures refs != 0 ==> weakGeneration == old(weakGeneration) && weakOutstanding == old(weakOutstanding)
      ensures refs != 0 ==> bound == old(bound) && factories == old(factories)
      ensures refs == 0 ==> weakGeneration == old(weakGeneration) + 1 && !weakOutstanding && !bound && factories == 0
    {
      refs := refs - 1;
      if refs == 0 {
        InvalidateWeakPtrs();
        destroyed, bound, factories := true, false, 0;
      }
    }

    method StartOnIOThread(bindingRefs: nat)
      requires !destroyed && !bound && observer == null
      modifies this, loop
      ensures bound && this.bindingRefs == bindingRefs && refs == old(refs) + bindingRefs && weakOutstanding
      ensures observer != null && fresh(observer) && observer.context == this && observer.loop == loop
      ensures observer.isActive && !observer.freed && observer.generation == weakGeneration == old(weakGeneration)
      ensures loop.observers == old(loop.observers) + {observer} && loop.created == old(loop.created) + 1
      ensures loop.alive == old(loop.alive) && loop.queue == old(loop.queue) && loop.deleted == old(loop.deleted)
      ensures owned == old(owned) && started == old(started) && !destroyed && factories == old(factories)
    {
      bound, this.bindingRefs, refs := true, bindingRefs, refs + bindingRefs;
      weakOutstanding := true;
      observer := new MessageLoopObserver(this);
    }

    /** An active observer is freed on the way; one that is inactive is the caller, and is left to
        free itself. The context lives until the end, even if the binding held the last references. */
    method ShutDownOnIOThread()
      requires CanShutDown() && ObserverLinked()
      modifies this, loop, observer
      decreases if observer != null && observer.isActive then 1 else 0, 1
      ensures WasShutDown()
      ensures old(observer != null && observer.isActive) ==>
                && old(observer).freed && loop.observers == old(loop.observers) - {old(observer)}
                && loop.deleted == old(loop.deleted) + 1
      ensures !old(observer != null && observer.isActive) ==>
                unchanged(loop) && (old(observer) != null ==> unchanged(old(observer)))
      ensures loop.alive == old(loop.alive) && loop.queue == old(loop.queue) && loop.created == old(loop.created)
    {
      InvalidateWeakPtrs();
      if observer != null {
        observer.ShutDown();
        observer := null;
      }
      refs := refs + 1;
      factories := 0;
      bound, refs, bindingRefs := false, refs - bindingRefs, 0;
      Release();
    }

    method PostTask(task: IoTask)
      modifies loop`queue, `refs
      ensures if loop.alive then loop.queue == old(loop.queue) + [task] && refs == old(refs) + 1
              else loop.queue == old(loop.queue) && refs == old(refs)
    {
      if loop.alive {
        loop.queue, refs := loop.queue + [task], refs + 1;
      }
    }

    method Start()
      requires Valid() && Enabled(Abs(), CallStart)
      modifies this, loop
      ensures Valid() && Abs() == Apply(old(Abs()), CallStart)
    {
      StepSettled(Abs(), CallStart);
      started := true;
      PostTask(StartOnIo);
    }

    /** The destructor of ServiceManagerConnectionImpl. */
    method DropOwner()
      requires Valid() && Enabled(Abs(), Event.DropOwner)
      modifies this, loop
      ensures Valid() && Abs() == Apply(old(Abs()), Event.DropOwner)
    {
      StepSettled(Abs(), Event.DropOwner);
      if started {
        PostTask(ShutDownOnIo);
      }
      owned := false;
      Release();
    }

    method RunStart(bindingRefs: nat)
      requires Valid() && Enabled(Abs(), Event.RunTask(bindingRefs)) && loop.queue[0].StartOnIo?
      modifies this, loop
      ensures Valid() && Abs() == Apply(old(Abs()), Event.RunTask(bindingRefs))
    {
      StepSettled(Abs(), Event.RunTask(bindingRefs));
      ghost var popped := Abs().(queue := loop.queue[1..]);
      loop.queue := loop.queue[1..];
      StartOnIOThread(bindingRefs);
      assert Abs() == Started(popped, bindingRefs);
      Release();
    }

    method RunShutDown(ghost bindingRefs: nat)
      requires Valid() && Enabled(Abs(), Event.RunTask(bindingRefs)) && loop.queue[0].ShutDownOnIo?
      modifies this, loop, loop.observers
      ensures Valid() && Abs() == Apply(old(Abs()), Event.RunTask(bindingRefs))
    {
      StepSettled(Abs(), Event.RunTask(bindingRefs));
      ghost var popped := Abs().(queue := loop.queue[1..]);
      loop.queue := loop.queue[1..];
      ShutDownOnIOThread();
      assert Abs() == ShutDown(popped);
      Release();
    }

    /** The message loop runs its next task, which holds a reference until it is done. */
    method RunTask(bindingRefs: nat)
      requires Valid() && Enabled(Abs(), Event.RunTask(bindingRefs))
      modifies this, loop, loop.observers
      ensures Valid() && Abs() == Apply(old(Abs()), Event.RunTask(bindingRefs))
    {
      match loop.queue[0]
      case StartOnIo => RunStart(bindingRefs);
      case ShutDownOnIo => RunShutDown(bindingRefs);
    }

    method OnBindInterface()
      requires Valid() && Enabled(Abs(), OpenFactory)
      modifies this
      ensures Valid() && Abs() == Apply(old(Abs()), OpenFactory)
    {
      factories := factories + 1;
    }

    /** Every observer left is told that the loop is going, and frees itself. */
    method NotifyObservers()
      requires bindingRefs <= refs && (destroyed <==> refs == 0)
      requires weakOutstanding <==> !destroyed && loop.observers != {}
      requires forall o | o in loop.observers :: o.context == this && o.loop == loop && o.isActive && !o.freed
      requires forall o, o' | o in loop.observers && o' in loop.observers :: o == o'
      requires !destroyed ==> loop.observers == if observer == null then {} else {observer}
      requires forall o | o in loop.observers :: o.generation <= weakGeneration
      requires forall o | o in loop.observers :: o.generation == weakGeneration <==> !destroyed
      modifies this, loop, loop.observers
      ensures Abs() == Notified(old(Abs())) && loop.observers == {}
      ensures !destroyed ==> observer == null
      ensures forall o | o in old(loop.observers) :: o.freed
    {
      while loop.observers != {}
        invariant loop.observers == old(loop.observers) || loop.observers == {}
        invariant loop.observers == old(loop.observers) ==>
                    unchanged(this) && unchanged(loop) && forall o | o in loop.observers :: unchanged(o)
        invariant loop.observers == {} ==> Abs() == Notified(old(Abs())) && (!destroyed ==> observer == null)
        invariant loop.observers == {} ==> forall o | o in old(loop.observers) :: o.freed
        decreases loop.observers
      {
        var o :| o in loop.observers;
        assert loop.observers == {o};
        o.WillDestroyCurrentMessageLoop();
      }
    }

    /** The loop's pending tasks are dropped, with their references. */
    method DropTasks()
      requires |loop.queue| <= refs && (destroyed ==> loop.queue == [])
      requires loop.queue != [] ==> bindingRefs + |loop.queue| <= refs
      modifies this, loop`queue
      ensures loop.queue == [] && refs == old(refs) - |old(loop.queue)|
      ensures old(loop.queue) == [] ==> unchanged(this)
      ensures old(loop.queue) != [] ==> (destroyed <==> refs == 0)
      ensures refs != 0 && !destroyed ==> weakGeneration == old(weakGeneration)
      ensures refs != 0 && !destroyed ==> weakOutstanding == old(weakOutstanding)
      ensures refs != 0 && !destroyed ==> bound == old(bound) && factories == old(factories)
      ensures old(loop.queue) != [] && refs == 0 ==>
                weakGeneration == old(weakGeneration) + 1 && !weakOutstanding && !bound && factories == 0
      ensures owned == old(owned) && started == old(started)
      ensures bindingRefs == old(bindingRefs) && observer == old(observer)
    {
      while loop.queue != []
        invariant refs == old(refs) - |old(loop.queue)| + |loop.queue| && bindingRefs == old(bindingRefs)
        invariant loop.queue != [] ==> bindingRefs + |loop.queue| <= refs && !destroyed
        invariant loop.queue == old(loop.queue) ==> unchanged(this)
        invariant loop.queue != old(loop.queue) ==> (destroyed <==> refs == 0)
        invariant refs != 0 ==> weakGeneration == old(weakGeneration) && weakOutstanding == old(weakOutstanding)
        invariant refs != 0 ==> bound == old(bound) && factories == old(factories)
        invariant loop.queue != old(loop.queue) && refs == 0 ==>
                    weakGeneration == old(weakGeneration) + 1 && !weakOutstanding && !bound && factories == 0
        invariant owned == old(owned) && started == old(started) && observer == old(observer)
        decreases |loop.queue|
      {
        loop.queue := loop.queue[1..];
        Release();
      }
    }

    method DestroyTasksFirst()
      requires Valid() && Enabled(Abs(), Event.DestroyLoop(true))
      modifies this, loop, loop.observers
      ensures Valid() && Abs() == Apply(old(Abs()), Event.DestroyLoop(true))
    {
      StepSettled(Abs(), Event.DestroyLoop(true));
      DropTasks();
      assert Abs() == QueueDropped(old(Abs()));
      NotifyObservers();
      loop.alive := false;
    }

    method DestroyObserversFirst()
      requires Valid() && Enabled(Abs(), Event.DestroyLoop(false))
      modifies this, loop, loop.observers
      ensures Valid() && Abs() == Apply(old(Abs()), Event.DestroyLoop(false))
    {
      StepSettled(Abs(), Event.DestroyLoop(false));
      NotifyObservers();
      assert Abs() == Notified(old(Abs()));
      DropTasks();
      loop.alive := false;
    }

    /** The message loop goes: its tasks are dropped and its observers are told, in either order. */
    method DestroyLoop(tasksFirst: bool)
      requires Valid() && Enabled(Abs(), Event.DestroyLoop(tasksFirst))
      modifies this, loop, loop.observers
      ensures Valid() && Abs() == Apply(old(Abs()), Event.DestroyLoop(tasksFirst))
    {
      if tasksFirst {
        DestroyTasksFirst();
      } else {
        DestroyObserversFirst();
      }
    }
  }
}
