/** What threads call and what comes of it: every call takes effect once, as it was made, in the order
    its thread made it; and no thread gets stuck. */
module WebThreadCalls {
  import opened Wrappers
  import opened WebThreadRegistry
  import opened WebThreadInterleaving
  import opened WebThreadRefinement

  /** A call of PostTaskHelper, of the constructor or the destructor of WebThreadImpl, or the end of a thread. */
  datatype Operation = Post(target: nat, task: Task) | Register(id: nat) | ShutDown(id: nat) | Finish

  /** The call that a step begins. */
  function Begun(a: Step): seq<Operation> {
    match a
    case EnterPost(_, target, task) => [Operation.Post(target, task)]
    case BeginRegister(_, id) => [Operation.Register(id)]
    case BeginShutDown(_, id) => [Operation.ShutDown(id)]
    case Join(_) => [Finish]
    case _ => []
  }

  /** The calls that thread `t` makes in a run. */
  function Calls(steps: seq<Step>, t: Tid): seq<Operation> {
    if steps == [] then [] else (if steps[0].t == t then Begun(steps[0]) else []) + Calls(steps[1..], t)
  }

  function Actor(e: Event): Tid {
    match e
    case Registered(actor, _) => actor
    case WasShutDown(actor, _) => actor
    case Joined(thread) => thread
    case Posted(actor, _, _, _) => actor
  }

  function CallOf(e: Event): Operation {
    match e
    case Registered(_, id) => Operation.Register(id)
    case WasShutDown(_, id) => Operation.ShutDown(id)
    case Joined(_) => Finish
    case Posted(_, target, task, _) => Operation.Post(target, task)
  }

  /** The calls of `t` that have taken effect. */
  function Done(log: seq<Event>, t: Tid): seq<Operation> {
    if log == [] then []
    else
      var e := log[|log| - 1];
      Done(log[..|log| - 1], t) + if Actor(e) == t then [CallOf(e)] else []
  }

  /** The call in the middle of which a thread is, if that has not taken effect. */
  function Unfinished(pc: Pc): seq<Operation> {
    match pc
    case Scanning(target, task) => [Operation.Post(target, task)]
    case Waiting(target, task) => [Operation.Post(target, task)]
    case Reading(target, task, _) => [Operation.Post(target, task)]
    case Enqueuing(target, task, _) => [Operation.Post(target, task)]
    case WritingRunning(id) => [Operation.Register(id)]
    case WritingRunner(id) => [Operation.Register(id)]
    case WritingShutDown(id) => [Operation.ShutDown(id)]
    case _ => []
  }

  function DoneOrUnfinished(s: System, t: Tid): seq<Operation>
    requires t < |s.pcs|
  {
    Done(s.log, t) + Unfinished(s.pcs[t])
  }

  lemma DoneSnoc(log: seq<Event>, e: Event, t: Tid)
    ensures Done(log + [e], t) == Done(log, t) + if Actor(e) == t then [CallOf(e)] else []
  {
    assert (log + [e])[..|log|] == log;
  }

  lemma Regrouped(a: seq<Operation>, b: seq<Operation>, c: seq<Operation>)
    ensures a + b + c == a + (b + c)
  {
  }

  lemma OthersStay(cfg: Config, fast: bool, s: System, a: Step, t: Tid)
    requires Shaped(cfg, s) && Enabled(cfg, s, a) && t < cfg.threads && t != a.t
    ensures Apply(cfg, fast, s, a).pcs[t] == s.pcs[t]
  {
  }

  /** A step that takes no effect leaves the thread in the same call, or begins one. */
  lemma SilentMove(cfg: Config, fast: bool, s: System, a: Step)
    requires Shaped(cfg, s) && Enabled(cfg, s, a) && !TakesEffect(s, a)
    ensures Apply(cfg, fast, s, a).log == s.log
    ensures Unfinished(Apply(cfg, fast, s, a).pcs[a.t]) == Unfinished(s.pcs[a.t]) + Begun(a)
  {
  }

  /** A step that takes effect ends the call the thread is in, or one that is over in this step. */
  lemma EffectiveMove(cfg: Config, fast: bool, s: System, a: Step)
    requires Shaped(cfg, s) && Enabled(cfg, s, a) && TakesEffect(s, a)
    ensures var e := EffectOf(s, a);
            && Apply(cfg, fast, s, a).log == s.log + [e] && Actor(e) == a.t
            && [CallOf(e)] == Unfinished(s.pcs[a.t]) + Begun(a)
            && Unfinished(Apply(cfg, fast, s, a).pcs[a.t]) == []
  {
  }

  lemma OwnStepDoesWhatWasCalled(cfg: Config, fast: bool, s: System, a: Step)
    requires Shaped(cfg, s) && Enabled(cfg, s, a)
    ensures DoneOrUnfinished(Apply(cfg, fast, s, a), a.t) == DoneOrUnfinished(s, a.t) + Begun(a)
  {
    var done, before, s' := Done(s.log, a.t), Unfinished(s.pcs[a.t]), Apply(cfg, fast, s, a);
    Regrouped(done, before, Begun(a));
    if TakesEffect(s, a) {
      assert Done(s'.log, a.t) == done + (before + Begun(a)) && Unfinished(s'.pcs[a.t]) == [] by {
        EffectiveMove(cfg, fast, s, a);
        DoneSnoc(s.log, EffectOf(s, a), a.t);
      }
    } else {
      assert Done(s'.log, a.t) == done && Unfinished(s'.pcs[a.t]) == before + Begun(a) by {
        SilentMove(cfg, fast, s, a);
      }
    }
  }

  lemma StepDoesWhatWasCalled(cfg: Config, fast: bool, s: System, a: Step, t: Tid)
    requires Shaped(cfg, s) && Enabled(cfg, s, a) && t < cfg.threads
    ensures DoneOrUnfinished(Apply(cfg, fast, s, a), t) == DoneOrUnfinished(s, t) + if a.t == t then Begun(a) else []
  {
    if t == a.t {
      OwnStepDoesWhatWasCalled(cfg, fast, s, a);
    } else {
      OthersStay(cfg, fast, s, a, t);
      if TakesEffect(s, a) {
        EffectiveMove(cfg, fast, s, a);
        DoneSnoc(s.log, EffectOf(s, a), t);
      } else {
        SilentMove(cfg, fast, s, a);
      }
    }
  }

  lemma {:induction false} RunDoesWhatWasCalled(cfg: Config, fast: bool, s: System, steps: seq<Step>, t: Tid)
    requires Shaped(cfg, s) && Exec(cfg, fast, s, steps).Some? && t < cfg.threads
    ensures DoneOrUnfinished(Exec(cfg, fast, s, steps).value, t) == DoneOrUnfinished(s, t) + Calls(steps, t)
    decreases |steps|
  {
    if steps != [] {
      var s', first := Apply(cfg, fast, s, steps[0]), if steps[0].t == t then Begun(steps[0]) else [];
      assert DoneOrUnfinished(s', t) == DoneOrUnfinished(s, t) + first by {
        StepDoesWhatWasCalled(cfg, fast, s, steps[0], t);
      }
      RunDoesWhatWasCalled(cfg, fast, s', steps[1..], t);
      Regrouped(DoneOrUnfinished(s, t), first, Calls(steps[1..], t));
    }
  }

  /** In every run, whoever holds the lock, the calls that a thread makes are those that have taken
      effect for it, with the arguments they were made with and in the order they were made, followed
      by the one it is in the middle of. */
  lemma CallsTakeEffect(cfg: Config, fast: bool, steps: seq<Step>, s: System, t: Tid)
    requires cfg.Valid() && Exec(cfg, fast, Init(cfg), steps) == Some(s) && t < cfg.threads
    ensures t < |s.pcs| && Calls(steps, t) == Done(s.log, t) + Unfinished(s.pcs[t])
  {
    RunDoesWhatWasCalled(cfg, fast, Init(cfg), steps, t);
  }

  // ---------------------------------------------------------------------------------------
  // Nobody gets stuck
  // ---------------------------------------------------------------------------------------

  function NextStep(t: Tid, pc: Pc): Step
    requires !pc.Idle?
  {
    match pc
    case Scanning(_, _) => Scan(t)
    case Waiting(_, _) => Acquire(t)
    case Reading(_, _, _) => ReadState(t)
    case Enqueuing(_, _, _) => Enqueue(t)
    case WritingRunning(_) => WriteRunning(t)
    case WritingRunner(_) => WriteRunner(t)
    case WritingShutDown(_) => WriteShutDown(t)
    case Releasing => Release(t)
  }

  /** Between calls a thread may post anything to any ID, or end; it may register or shut down what
      the lifetime discipline lets it, once the lock is free. */
  lemma CallsAreNotRefused(cfg: Config, fast: bool, s: System, t: Tid, target: nat, task: Task)
    requires cfg.Valid() && Reachable(cfg, fast, s)
    requires t < cfg.threads && t !in s.joined && target < |cfg.owner| && t < |s.pcs| && s.pcs[t].Idle?
    ensures Shaped(cfg, s) && Enabled(cfg, s, EnterPost(t, target, task)) && Enabled(cfg, s, Join(t))
    ensures MayRegister(s.registry.states, target) && s.lock.None? ==> Enabled(cfg, s, BeginRegister(t, target))
    ensures MayShutDown(cfg, s.registry.states, s.joined, t, target) && s.lock.None? ==>
              Enabled(cfg, s, BeginShutDown(t, target))
  {
    ReachableStates(cfg, fast, s);
  }

  lemma NextIsEnabled(cfg: Config, s: System, t: Tid)
    requires Inv(cfg, s) && t < cfg.threads && !s.pcs[t].Idle?
    ensures Enabled(cfg, s, NextStep(t, s.pcs[t])) || ((s.pcs[t].Scanning? || s.pcs[t].Waiting?) && s.lock.Some?)
  {
    assert PcInv(cfg, s, t);
  }

  /** In the middle of a call a thread can go on, unless it needs the lock and another thread has it,
      which can then go on itself. */
  lemma CallsGoOn(cfg: Config, fast: bool, s: System, t: Tid)
    requires cfg.Valid() && Reachable(cfg, fast, s) && t < cfg.threads && t < |s.pcs| && !s.pcs[t].Idle?
    ensures Shaped(cfg, s)
    ensures Enabled(cfg, s, NextStep(t, s.pcs[t])) ||
            ((s.pcs[t].Scanning? || s.pcs[t].Waiting?) && s.lock.Some? && s.lock.value != t)
    ensures s.lock.Some? ==>
              && s.lock.value < |s.pcs| && !s.pcs[s.lock.value].Idle?
              && Enabled(cfg, s, NextStep(s.lock.value, s.pcs[s.lock.value]))
  {
    ReachableStates(cfg, fast, s);
    NextIsEnabled(cfg, s, t);
    if s.lock.Some? {
      var steps: seq<Step> :| Exec(cfg, fast, Init(cfg), steps) == Some(s);
      LockHolderExists(cfg, fast, Init(cfg), steps);
      assert s.pcs[s.lock.value].HoldsLock();
      NextIsEnabled(cfg, s, s.lock.value);
    }
  }

  lemma {:induction false} LockHolderExists(cfg: Config, fast: bool, s: System, steps: seq<Step>)
    requires Shaped(cfg, s) && (s.lock.Some? ==> s.lock.value < cfg.threads)
    ensures var r := Exec(cfg, fast, s, steps); r.Some? && r.value.lock.Some? ==> r.value.lock.value < cfg.threads
    decreases |steps|
  {
    if steps != [] && Enabled(cfg, s, steps[0]) {
      LockHolderExists(cfg, fast, Apply(cfg, fast, s, steps[0]), steps[1..]);
    }
  }

  /** After its scan PostTaskHelper goes on without the lock exactly when it may: a runner of the
      thread is registered, and none under a longer-lived ID than the target. */
  lemma LockLeftAloneExactlyWhen(cfg: Config, fast: bool, s: System, t: Tid)
    requires Shaped(cfg, s) && Enabled(cfg, s, Scan(t))
    ensures var target := s.pcs[t].target;
            target <= |s.registry.runners| ==>
            (Apply(cfg, fast, s, Scan(t)).pcs[t].Reading? <==>
             fast && Some(t) in s.registry.runners && Some(t) !in s.registry.runners[..target])
    ensures Apply(cfg, fast, s, Scan(t)).pcs[t].Reading? || Apply(cfg, fast, s, Scan(t)).pcs[t].Waiting?
  {
    var target, runners := s.pcs[t].target, s.registry.runners;
    if target <= |runners| {
      OutlivesExactlyWhen(runners, t, target);
    }
  }
}
