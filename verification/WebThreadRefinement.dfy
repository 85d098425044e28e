/** What a run of the fine-grained system amounts to. Its log is a legal history of the atomic
    registry, the registry holds what that history gives, and a system that always takes the lock
    could have produced the same log. */
module WebThreadRefinement {
  import opened Wrappers
  import opened WebThreadRegistry
  import opened WebThreadInterleaving

  // ---------------------------------------------------------------------------------------
  // Histories of the atomic registry
  // ---------------------------------------------------------------------------------------

  function Effect(cfg: Config, r: Registry, e: Event): (r': Registry)
    requires r.WellFormed() && |r.states| == |cfg.owner|
    ensures r'.WellFormed() && |r'.states| == |cfg.owner|
  {
    match e
    case Registered(_, id) => if id < |r.states| then Register(r, id, cfg.owner[id]) else r
    case WasShutDown(_, id) => if id < |r.states| then ShutDown(r, id) else r
    case Joined(_) => r
    case Posted(_, target, task, _) => if target < |r.states| then Post(r, target, task) else r
  }

  function Replay(cfg: Config, log: seq<Event>): (r: Registry)
    ensures r.WellFormed() && |r.states| == |cfg.owner|
  {
    if log == [] then Empty(|cfg.owner|)
    else Effect(cfg, Replay(cfg, log[..|log| - 1]), log[|log| - 1])
  }

  function JoinedBy(log: seq<Event>): set<Tid> {
    set e | e in log && e.Joined? :: e.thread
  }

  /** `e` obeys the lifetime discipline, and a post is accepted exactly when its target is RUNNING. */
  predicate EventOk(cfg: Config, r: Registry, joined: set<Tid>, e: Event)
    requires r.WellFormed() && |r.states| == |cfg.owner|
  {
    match e
    case Registered(t, id) => t < cfg.threads && t !in joined && MayRegister(r.states, id)
    case WasShutDown(t, id) => t < cfg.threads && t !in joined && MayShutDown(cfg, r.states, joined, t, id)
    case Joined(t) => t < cfg.threads && t !in joined
    case Posted(t, target, _, accepted) =>
      t < cfg.threads && t !in joined && target < |r.states| && (accepted <==> r.states[target] == RUNNING)
  }

  predicate Legal(cfg: Config, log: seq<Event>) {
    log == [] ||
    (var before := log[..|log| - 1];
     Legal(cfg, before) && EventOk(cfg, Replay(cfg, before), JoinedBy(before), log[|log| - 1]))
  }

  lemma Append(cfg: Config, log: seq<Event>, e: Event)
    ensures Replay(cfg, log + [e]) == Effect(cfg, Replay(cfg, log), e)
    ensures Legal(cfg, log + [e]) <==> Legal(cfg, log) && EventOk(cfg, Replay(cfg, log), JoinedBy(log), e)
    ensures JoinedBy(log + [e]) == JoinedBy(log) + (if e.Joined? then {e.thread} else {})
  {
    assert (log + [e])[..|log|] == log;
    var joined := JoinedBy(log) + (if e.Joined? then {e.thread} else {});
    forall t ensures t in JoinedBy(log + [e]) <==> t in joined {
      assert Joined(t) in log + [e] <==> Joined(t) in log || Joined(t) == e;
    }
  }

  // ---------------------------------------------------------------------------------------
  // The fine-grained system refines the atomic one
  // ---------------------------------------------------------------------------------------

  /** An ID counts as registered once both of its writes are done. */
  function Abs(cfg: Config, s: System): Registry
    requires Shaped(cfg, s)
  {
    var r := s.registry;
    r.(states := seq(|cfg.owner|, i requires 0 <= i < |cfg.owner| =>
                       if r.runners[i].None? then UNINITIALIZED else r.states[i]))
  }

  predicate LogInv(cfg: Config, s: System)
    requires Shaped(cfg, s)
  {
    Legal(cfg, s.log) && Abs(cfg, s) == Replay(cfg, s.log) && s.joined == JoinedBy(s.log)
  }

  /** The steps that take effect. */
  predicate TakesEffect(s: System, a: Step)
    requires a.t < |s.pcs|
  {
    || a.WriteRunner? || a.WriteShutDown? || a.Join? || a.Enqueue?
    || (a.ReadState? && s.pcs[a.t].Reading? && s.pcs[a.t].target < |s.registry.states| &&
        s.registry.states[s.pcs[a.t].target] != RUNNING)
  }

  lemma SilentStep(cfg: Config, fast: bool, s: System, a: Step)
    requires Inv(cfg, s) && Enabled(cfg, s, a) && !TakesEffect(s, a)
    ensures var s' := Apply(cfg, fast, s, a);
            s'.log == s.log && s'.joined == s.joined && Abs(cfg, s') == Abs(cfg, s)
  {
    assert PcInv(cfg, s, a.t);
    assert Abs(cfg, Apply(cfg, fast, s, a)).states == Abs(cfg, s).states;
  }

  function EffectOf(s: System, a: Step): Event
    requires a.t < |s.pcs| && TakesEffect(s, a)
    requires a.WriteRunner? ==> s.pcs[a.t].WritingRunner?
    requires a.WriteShutDown? ==> s.pcs[a.t].WritingShutDown?
    requires a.Enqueue? ==> s.pcs[a.t].Enqueuing?
  {
    match a
    case WriteRunner(t) => Registered(t, s.pcs[t].id)
    case WriteShutDown(t) => WasShutDown(t, s.pcs[t].id)
    case Join(t) => Joined(t)
    case Enqueue(t) => Posted(t, s.pcs[t].target, s.pcs[t].task, true)
    case ReadState(t) => Posted(t, s.pcs[t].target, s.pcs[t].task, false)
  }

  lemma EffectIsOk(cfg: Config, s: System, a: Step)
    requires Inv(cfg, s) && Enabled(cfg, s, a) && TakesEffect(s, a)
    ensures EventOk(cfg, Abs(cfg, s), s.joined, EffectOf(s, a))
  {
    assert PcInv(cfg, s, a.t);
  }

  lemma EffectOnRegistry(cfg: Config, fast: bool, s: System, a: Step)
    requires Inv(cfg, s) && Enabled(cfg, s, a) && TakesEffect(s, a)
    ensures var s', e := Apply(cfg, fast, s, a), EffectOf(s, a);
            && s'.log == s.log + [e] && Abs(cfg, s') == Effect(cfg, Abs(cfg, s), e)
            && s'.joined == s.joined + (if e.Joined? then {e.thread} else {})
  {
    assert PcInv(cfg, s, a.t);
    assert Abs(cfg, Apply(cfg, fast, s, a)).states == Effect(cfg, Abs(cfg, s), EffectOf(s, a)).states;
  }

  lemma StepLog(cfg: Config, fast: bool, s: System, a: Step)
    requires Inv(cfg, s) && LogInv(cfg, s) && Enabled(cfg, s, a)
    ensures LogInv(cfg, Apply(cfg, fast, s, a))
  {
    if TakesEffect(s, a) {
      EffectIsOk(cfg, s, a);
      EffectOnRegistry(cfg, fast, s, a);
      Append(cfg, s.log, EffectOf(s, a));
    } else {
      SilentStep(cfg, fast, s, a);
    }
  }

  lemma {:induction false} ExecInv(cfg: Config, fast: bool, s: System, steps: seq<Step>)
    requires Inv(cfg, s) && LogInv(cfg, s)
    ensures var r := Exec(cfg, fast, s, steps); r.Some? ==> Inv(cfg, r.value) && LogInv(cfg, r.value)
    decreases |steps|
  {
    if steps != [] && Enabled(cfg, s, steps[0]) {
      StepInv(cfg, fast, s, steps[0]);
      StepLog(cfg, fast, s, steps[0]);
      ExecInv(cfg, fast, Apply(cfg, fast, s, steps[0]), steps[1..]);
    }
  }

  /** The first main result: in every interleaving the registry is where its log says, the log is
      legal, the source's assertions hold, and no write to an entry is concurrent with another
      access to it, with or without the lock. */
  lemma ReachableStates(cfg: Config, fast: bool, s: System)
    requires cfg.Valid() && Reachable(cfg, fast, s)
    ensures Inv(cfg, s) && LogInv(cfg, s) && !Race(s)
  {
    InitInv(cfg);
    assert Abs(cfg, Init(cfg)) == Empty(|cfg.owner|);
    var steps: seq<Step> :| Exec(cfg, fast, Init(cfg), steps) == Some(s);
    ExecInv(cfg, fast, Init(cfg), steps);
    forall a, b, e: nat | 0 <= a < |s.pcs| && 0 <= b < |s.pcs| && a != b ensures !RaceOn(s, a, b, e) {
      NoRaceOn(cfg, s, a, b, e);
    }
  }

  /** While a thread sits in PostTaskHelper having read RUNNING, with or without the lock, the
      target is still RUNNING and its runner is there. */
  lemma RunnerThereWhenEnqueuing(cfg: Config, fast: bool, s: System, t: Tid)
    requires cfg.Valid() && Reachable(cfg, fast, s)
    requires t < |s.pcs| && s.pcs[t].Enqueuing?
    ensures var target := s.pcs[t].target;
            target < |cfg.owner| && s.registry.states[target] == RUNNING &&
            s.registry.runners[target] == Some(cfg.owner[target])
  {
    ReachableStates(cfg, fast, s);
    assert PcInv(cfg, s, t);
  }

  /** A runner is there exactly when the state is RUNNING or SHUTDOWN, except to the thread that
      holds the lock between the two writes of a registration. */
  lemma RunnerExactlyWhenRegistered(cfg: Config, fast: bool, s: System, id: nat)
    requires cfg.Valid() && Reachable(cfg, fast, s) && id < |cfg.owner|
    requires |s.registry.states| == |s.registry.runners| == |cfg.owner|
    ensures !BetweenWrites(s, id) ==> (s.registry.runners[id].Some? <==> s.registry.states[id] != UNINITIALIZED)
    ensures BetweenWrites(s, id) ==> s.registry.runners[id].None? && s.registry.states[id] == RUNNING
  {
    ReachableStates(cfg, fast, s);
    if BetweenWrites(s, id) {
      assert PcInv(cfg, s, s.lock.value);
    }
  }

  // ---------------------------------------------------------------------------------------
  // Every legal history is a run, of the system that always takes the lock and of the other
  // ---------------------------------------------------------------------------------------

  /** Nobody in the middle of anything after the history `log`. */
  function Quiet(cfg: Config, log: seq<Event>): System {
    System(Replay(cfg, log), None, seq(cfg.threads, _ => Idle), JoinedBy(log), log)
  }

  /** The ID that lets the thread that makes a post after `log` go without the lock. */
  function Unlocked(cfg: Config, fast: bool, log: seq<Event>, e: Event): Option<nat> {
    if fast && e.Posted? && TargetOutlives(Replay(cfg, log).runners, e.actor, e.target)
    then CurrentId(Replay(cfg, log).runners, e.actor)
    else None
  }

  /** How PostTaskHelper ends. */
  function Ending(t: Tid, current: Option<nat>): seq<Step> {
    if current.None? then [Release(t)] else []
  }

  /** PostTaskHelper from its read of the state on. */
  function Posting(t: Tid, accepted: bool, current: Option<nat>): seq<Step> {
    [ReadState(t)] + if accepted then [Enqueue(t)] + Ending(t, current) else Ending(t, current)
  }

  /** One event, carried out without interruption; a post without the lock if `current` allows it. */
  function StepsFor(e: Event, current: Option<nat>): seq<Step> {
    match e
    case Registered(t, id) => [BeginRegister(t, id), WriteRunning(t), WriteRunner(t), Release(t)]
    case WasShutDown(t, id) => [BeginShutDown(t, id), WriteShutDown(t), Release(t)]
    case Joined(t) => [Join(t)]
    case Posted(t, target, task, accepted) =>
      [EnterPost(t, target, task)] + ([Scan(t)] +
      if current.None? then [Acquire(t)] + Posting(t, accepted, None) else Posting(t, accepted, current))
  }

  function Schedule(cfg: Config, fast: bool, log: seq<Event>): seq<Step> {
    if log == [] then []
    else
      var before, e := log[..|log| - 1], log[|log| - 1];
      Schedule(cfg, fast, before) + StepsFor(e, Unlocked(cfg, fast, before, e))
  }

  lemma {:induction false} ExecAppend(cfg: Config, fast: bool, s: System, xs: seq<Step>, ys: seq<Step>)
    requires Shaped(cfg, s) && Exec(cfg, fast, s, xs).Some?
    ensures Exec(cfg, fast, s, xs + ys) == Exec(cfg, fast, Exec(cfg, fast, s, xs).value, ys)
    decreases |xs|
  {
    if xs == [] {
      assert xs + ys == ys;
    } else {
      assert (xs + ys)[1..] == xs[1..] + ys;
      ExecAppend(cfg, fast, Apply(cfg, fast, s, xs[0]), xs[1..], ys);
    }
  }

  predicate StepsTo(cfg: Config, fast: bool, s: System, a: Step, s': System) {
    Shaped(cfg, s) && Enabled(cfg, s, a) && Apply(cfg, fast, s, a) == s'
  }

  /** One step, then a run that is known. */
  lemma Then(cfg: Config, fast: bool, s: System, a: Step, s': System, rest: seq<Step>, end: System)
    requires StepsTo(cfg, fast, s, a, s') && Exec(cfg, fast, s', rest) == Some(end)
    ensures Exec(cfg, fast, s, [a] + rest) == Some(end)
  {
    assert ([a] + rest)[1..] == rest;
  }

  /** Quiet, but for thread `t`, which holds the lock at `pc`. */
  function Busy(cfg: Config, r: Registry, log: seq<Event>, t: Tid, pc: Pc): System
    requires t < cfg.threads
  {
    System(r, if pc.HoldsLock() then Some(t) else None, seq(cfg.threads, _ => Idle)[t := pc], JoinedBy(log), log)
  }

  lemma BusyIdle(cfg: Config, log: seq<Event>, t: Tid)
    requires t < cfg.threads
    ensures Busy(cfg, Replay(cfg, log), log, t, Idle) == Quiet(cfg, log)
  {
    assert seq(cfg.threads, _ => Idle)[t := Idle] == seq(cfg.threads, _ => Idle);
  }

  /** A thread moves on without touching the registry or the log. */
  lemma BusyStep(cfg: Config, fast: bool, r: Registry, log: seq<Event>, a: Step, pc: Pc, pc': Pc)
    requires cfg.Valid() && a.t < cfg.threads && a.t !in JoinedBy(log)
    requires r.WellFormed() && |r.states| == |cfg.owner|
    requires Enabled(cfg, Busy(cfg, r, log, a.t, pc), a)
    requires match a
             case EnterPost(_, target, task) => pc' == Scanning(target, task)
             case Scan(_) =>
               if fast && TargetOutlives(r.runners, a.t, pc.target)
               then pc' == Reading(pc.target, pc.task, CurrentId(r.runners, a.t))
               else pc' == Waiting(pc.target, pc.task)
             case Acquire(_) => pc' == Reading(pc.target, pc.task, None)
             case ReadState(_) => r.states[pc.target] == RUNNING && pc' == Enqueuing(pc.target, pc.task, pc.current)
             case BeginRegister(_, id) => pc' == WritingRunning(id)
             case BeginShutDown(_, id) => pc' == WritingShutDown(id)
             case Release(_) => pc' == Idle
             case _ => false
    requires pc.HoldsLock() && !a.Release? ==> pc'.HoldsLock()
    ensures StepsTo(cfg, fast, Busy(cfg, r, log, a.t, pc), a, Busy(cfg, r, log, a.t, pc'))
  {
    assert Busy(cfg, r, log, a.t, pc).pcs[a.t := pc'] == Busy(cfg, r, log, a.t, pc').pcs;
  }

  /** A thread writes the registry and, with its last write, the log. */
  lemma BusyWrite(
    cfg: Config, fast: bool, r: Registry, log: seq<Event>, a: Step, pc: Pc, r': Registry, log': seq<Event>, pc': Pc)
    requires cfg.Valid() && a.t < cfg.threads && a.t !in JoinedBy(log) && JoinedBy(log') == JoinedBy(log)
    requires r.WellFormed() && |r.states| == |cfg.owner| && pc.HoldsLock() == pc'.HoldsLock()
    requires Enabled(cfg, Busy(cfg, r, log, a.t, pc), a)
    requires match a
             case WriteRunning(_) =>
               r' == r.(states := r.states[pc.id := RUNNING]) && log' == log && pc' == WritingRunner(pc.id)
             case WriteRunner(_) =>
               && r' == r.(runners := r.runners[pc.id := Some(cfg.owner[pc.id])])
               && log' == log + [Registered(a.t, pc.id)] && pc' == Releasing
             case WriteShutDown(_) =>
               && r' == r.(states := r.states[pc.id := SHUTDOWN])
               && log' == log + [WasShutDown(a.t, pc.id)] && pc' == Releasing
             case Enqueue(_) =>
               && r' == r.(queues := r.queues[pc.target := r.queues[pc.target] + [pc.task]])
               && log' == log + [Posted(a.t, pc.target, pc.task, true)] && pc' == AfterPost(pc.current)
             case ReadState(_) =>
               && r.states[pc.target] != RUNNING && r' == r
               && log' == log + [Posted(a.t, pc.target, pc.task, false)] && pc' == AfterPost(pc.current)
             case _ => false
    ensures StepsTo(cfg, fast, Busy(cfg, r, log, a.t, pc), a, Busy(cfg, r', log', a.t, pc'))
  {
    assert Busy(cfg, r, log, a.t, pc).pcs[a.t := pc'] == Busy(cfg, r', log', a.t, pc').pcs;
  }

  /** Giving the lock back ends an operation. */
  lemma ReleaseRun(cfg: Config, fast: bool, log: seq<Event>, t: Tid)
    requires cfg.Valid() && t < cfg.threads && t !in JoinedBy(log)
    ensures Exec(cfg, fast, Busy(cfg, Replay(cfg, log), log, t, Releasing), [Release(t)]) == Some(Quiet(cfg, log))
  {
    BusyIdle(cfg, log, t);
    BusyStep(cfg, fast, Replay(cfg, log), log, Release(t), Releasing, Idle);
    Then(cfg, fast, Busy(cfg, Replay(cfg, log), log, t, Releasing), Release(t), Quiet(cfg, log), [], Quiet(cfg, log));
  }

  /** A step of thread `t` from one state to the next, and then a run that is known. */
  lemma BusyThen(
    cfg: Config, fast: bool, r: Registry, log: seq<Event>, a: Step, pc: Pc, pc': Pc, rest: seq<Step>, end: System)
    requires a.t < cfg.threads
    requires StepsTo(cfg, fast, Busy(cfg, r, log, a.t, pc), a, Busy(cfg, r, log, a.t, pc'))
    requires Exec(cfg, fast, Busy(cfg, r, log, a.t, pc'), rest) == Some(end)
    ensures Exec(cfg, fast, Busy(cfg, r, log, a.t, pc), [a] + rest) == Some(end)
  {
    Then(cfg, fast, Busy(cfg, r, log, a.t, pc), a, Busy(cfg, r, log, a.t, pc'), rest, end);
  }

  lemma RegisterWrites(cfg: Config, fast: bool, log: seq<Event>, r: Registry, t: Tid, id: nat)
    requires cfg.Valid() && t < cfg.threads && t !in JoinedBy(log) && r == Replay(cfg, log)
    requires MayRegister(r.states, id)
    ensures Exec(cfg, fast, Busy(cfg, r, log, t, WritingRunning(id)), [WriteRunning(t), WriteRunner(t), Release(t)]) ==
            Some(Quiet(cfg, log + [Registered(t, id)]))
  {
    var log' := log + [Registered(t, id)];
    var half, r' := r.(states := r.states[id := RUNNING]), Register(r, id, cfg.owner[id]);
    Append(cfg, log, Registered(t, id));
    ReleaseRun(cfg, fast, log', t);
    BusyWrite(cfg, fast, half, log, WriteRunner(t), WritingRunner(id), r', log', Releasing);
    Then(cfg, fast, Busy(cfg, half, log, t, WritingRunner(id)), WriteRunner(t), Busy(cfg, r', log', t, Releasing),
         [Release(t)], Quiet(cfg, log'));
    BusyWrite(cfg, fast, r, log, WriteRunning(t), WritingRunning(id), half, log, WritingRunner(id));
    Then(cfg, fast, Busy(cfg, r, log, t, WritingRunning(id)), WriteRunning(t),
         Busy(cfg, half, log, t, WritingRunner(id)), [WriteRunner(t)] + [Release(t)], Quiet(cfg, log'));
    assert [WriteRunning(t)] + ([WriteRunner(t)] + [Release(t)]) == [WriteRunning(t), WriteRunner(t), Release(t)];
  }

  lemma RegisterRun(cfg: Config, fast: bool, log: seq<Event>, t: Tid, id: nat)
    requires cfg.Valid() && t < cfg.threads && t !in JoinedBy(log) && MayRegister(Replay(cfg, log).states, id)
    ensures Exec(cfg, fast, Quiet(cfg, log), StepsFor(Registered(t, id), None)) ==
            Some(Quiet(cfg, log + [Registered(t, id)]))
  {
    var r := Replay(cfg, log);
    BusyIdle(cfg, log, t);
    BusyStep(cfg, fast, r, log, BeginRegister(t, id), Idle, WritingRunning(id));
    RegisterWrites(cfg, fast, log, r, t, id);
    BusyThen(cfg, fast, r, log, BeginRegister(t, id), Idle, WritingRunning(id),
             [WriteRunning(t), WriteRunner(t), Release(t)], Quiet(cfg, log + [Registered(t, id)]));
    assert StepsFor(Registered(t, id), None) == [BeginRegister(t, id)] + [WriteRunning(t), WriteRunner(t), Release(t)];
  }

  lemma ShutDownWrites(cfg: Config, fast: bool, log: seq<Event>, r: Registry, t: Tid, id: nat)
    requires cfg.Valid() && t < cfg.threads && t !in JoinedBy(log) && r == Replay(cfg, log) && id < |cfg.owner|
    ensures Exec(cfg, fast, Busy(cfg, r, log, t, WritingShutDown(id)), [WriteShutDown(t)] + [Release(t)]) ==
            Some(Quiet(cfg, log + [WasShutDown(t, id)]))
  {
    var log' := log + [WasShutDown(t, id)];
    Append(cfg, log, WasShutDown(t, id));
    ReleaseRun(cfg, fast, log', t);
    BusyWrite(cfg, fast, r, log, WriteShutDown(t), WritingShutDown(id), ShutDown(r, id), log', Releasing);
    Then(cfg, fast, Busy(cfg, r, log, t, WritingShutDown(id)), WriteShutDown(t),
         Busy(cfg, ShutDown(r, id), log', t, Releasing), [Release(t)], Quiet(cfg, log'));
  }

  lemma ShutDownRun(cfg: Config, fast: bool, log: seq<Event>, t: Tid, id: nat)
    requires cfg.Valid() && t < cfg.threads && t !in JoinedBy(log)
    requires MayShutDown(cfg, Replay(cfg, log).states, JoinedBy(log), t, id)
    ensures Exec(cfg, fast, Quiet(cfg, log), StepsFor(WasShutDown(t, id), None)) ==
            Some(Quiet(cfg, log + [WasShutDown(t, id)]))
  {
    var r := Replay(cfg, log);
    BusyIdle(cfg, log, t);
    BusyStep(cfg, fast, r, log, BeginShutDown(t, id), Idle, WritingShutDown(id));
    ShutDownWrites(cfg, fast, log, r, t, id);
    BusyThen(cfg, fast, r, log, BeginShutDown(t, id), Idle, WritingShutDown(id), [WriteShutDown(t)] + [Release(t)],
             Quiet(cfg, log + [WasShutDown(t, id)]));
    assert StepsFor(WasShutDown(t, id), None) == [BeginShutDown(t, id)] + ([WriteShutDown(t)] + [Release(t)]);
  }

  lemma PostEnds(cfg: Config, fast: bool, log: seq<Event>, t: Tid, current: Option<nat>)
    requires cfg.Valid() && t < cfg.threads && t !in JoinedBy(log)
    ensures Exec(cfg, fast, Busy(cfg, Replay(cfg, log), log, t, AfterPost(current)), Ending(t, current)) ==
            Some(Quiet(cfg, log))
  {
    if current.None? {
      ReleaseRun(cfg, fast, log, t);
    } else {
      BusyIdle(cfg, log, t);
    }
  }

  lemma PostAccepted(
    cfg: Config, fast: bool, log: seq<Event>, r: Registry, t: Tid, target: nat, task: Task, current: Option<nat>)
    requires cfg.Valid() && t < cfg.threads && t !in JoinedBy(log) && r == Replay(cfg, log)
    requires target < |cfg.owner| && r.states[target] == RUNNING
    ensures Exec(cfg, fast, Busy(cfg, r, log, t, Reading(target, task, current)), Posting(t, true, current)) ==
            Some(Quiet(cfg, log + [Posted(t, target, task, true)]))
  {
    var log', reading := log + [Posted(t, target, task, true)], Reading(target, task, current);
    var enqueuing := Enqueuing(target, task, current);
    Append(cfg, log, Posted(t, target, task, true));
    PostEnds(cfg, fast, log', t, current);
    BusyWrite(cfg, fast, r, log, Enqueue(t), enqueuing, Post(r, target, task), log', AfterPost(current));
    Then(cfg, fast, Busy(cfg, r, log, t, enqueuing), Enqueue(t),
         Busy(cfg, Post(r, target, task), log', t, AfterPost(current)), Ending(t, current), Quiet(cfg, log'));
    BusyStep(cfg, fast, r, log, ReadState(t), reading, enqueuing);
    BusyThen(cfg, fast, r, log, ReadState(t), reading, enqueuing, [Enqueue(t)] + Ending(t, current), Quiet(cfg, log'));
  }

  lemma PostRejected(
    cfg: Config, fast: bool, log: seq<Event>, r: Registry, t: Tid, target: nat, task: Task, current: Option<nat>)
    requires cfg.Valid() && t < cfg.threads && t !in JoinedBy(log) && r == Replay(cfg, log)
    requires target < |cfg.owner| && r.states[target] != RUNNING
    ensures Exec(cfg, fast, Busy(cfg, r, log, t, Reading(target, task, current)), Posting(t, false, current)) ==
            Some(Quiet(cfg, log + [Posted(t, target, task, false)]))
  {
    var log', reading := log + [Posted(t, target, task, false)], Reading(target, task, current);
    Append(cfg, log, Posted(t, target, task, false));
    PostEnds(cfg, fast, log', t, current);
    BusyWrite(cfg, fast, r, log, ReadState(t), reading, r, log', AfterPost(current));
    Then(cfg, fast, Busy(cfg, r, log, t, reading), ReadState(t), Busy(cfg, r, log', t, AfterPost(current)),
         Ending(t, current), Quiet(cfg, log'));
  }

  /** PostTaskHelper up to its scan, and then the rest. */
  lemma PostEnters(
    cfg: Config, fast: bool, log: seq<Event>, r: Registry, t: Tid, target: nat, task: Task, pc: Pc, rest: seq<Step>,
    end: System)
    requires cfg.Valid() && t < cfg.threads && t !in JoinedBy(log) && r == Replay(cfg, log) && target < |cfg.owner|
    requires pc == if fast && TargetOutlives(r.runners, t, target) then Reading(target, task, CurrentId(r.runners, t))
                   else Waiting(target, task)
    requires Exec(cfg, fast, Busy(cfg, r, log, t, pc), rest) == Some(end)
    ensures Exec(cfg, fast, Quiet(cfg, log), [EnterPost(t, target, task)] + ([Scan(t)] + rest)) == Some(end)
  {
    var scanning := Scanning(target, task);
    BusyIdle(cfg, log, t);
    BusyStep(cfg, fast, r, log, Scan(t), scanning, pc);
    BusyThen(cfg, fast, r, log, Scan(t), scanning, pc, rest, end);
    BusyStep(cfg, fast, r, log, EnterPost(t, target, task), Idle, scanning);
    BusyThen(cfg, fast, r, log, EnterPost(t, target, task), Idle, scanning, [Scan(t)] + rest, end);
  }

  lemma PostLocks(
    cfg: Config, fast: bool, log: seq<Event>, r: Registry, t: Tid, target: nat, task: Task, rest: seq<Step>,
    end: System)
    requires cfg.Valid() && t < cfg.threads && t !in JoinedBy(log) && r == Replay(cfg, log) && target < |cfg.owner|
    requires Exec(cfg, fast, Busy(cfg, r, log, t, Reading(target, task, None)), rest) == Some(end)
    ensures Exec(cfg, fast, Busy(cfg, r, log, t, Waiting(target, task)), [Acquire(t)] + rest) == Some(end)
  {
    BusyStep(cfg, fast, r, log, Acquire(t), Waiting(target, task), Reading(target, task, None));
    BusyThen(cfg, fast, r, log, Acquire(t), Waiting(target, task), Reading(target, task, None), rest, end);
  }

  lemma PostRun(cfg: Config, fast: bool, log: seq<Event>, t: Tid, target: nat, task: Task, accepted: bool)
    requires cfg.Valid() && t < cfg.threads && t !in JoinedBy(log) && target < |cfg.owner|
    requires accepted <==> Replay(cfg, log).states[target] == RUNNING
    ensures var e := Posted(t, target, task, accepted);
            Exec(cfg, fast, Quiet(cfg, log), StepsFor(e, Unlocked(cfg, fast, log, e))) == Some(Quiet(cfg, log + [e]))
  {
    var e, r := Posted(t, target, task, accepted), Replay(cfg, log);
    var current := Unlocked(cfg, fast, log, e);
    if accepted {
      PostAccepted(cfg, fast, log, r, t, target, task, current);
    } else {
      PostRejected(cfg, fast, log, r, t, target, task, current);
    }
    var end := Quiet(cfg, log + [e]);
    if current.None? {
      PostLocks(cfg, fast, log, r, t, target, task, Posting(t, accepted, None), end);
      PostEnters(cfg, fast, log, r, t, target, task, Waiting(target, task), [Acquire(t)] + Posting(t, accepted, None),
                 end);
    } else {
      PostEnters(cfg, fast, log, r, t, target, task, Reading(target, task, current), Posting(t, accepted, current),
                 end);
    }
  }

  lemma JoinRun(cfg: Config, fast: bool, log: seq<Event>, t: Tid)
    requires cfg.Valid() && t < cfg.threads && t !in JoinedBy(log)
    ensures Exec(cfg, fast, Quiet(cfg, log), StepsFor(Joined(t), None)) == Some(Quiet(cfg, log + [Joined(t)]))
  {
    Append(cfg, log, Joined(t));
    Then(cfg, fast, Quiet(cfg, log), Join(t), Quiet(cfg, log + [Joined(t)]), [], Quiet(cfg, log + [Joined(t)]));
  }

  lemma EventRun(cfg: Config, fast: bool, log: seq<Event>, e: Event)
    requires cfg.Valid() && EventOk(cfg, Replay(cfg, log), JoinedBy(log), e)
    ensures Exec(cfg, fast, Quiet(cfg, log), StepsFor(e, Unlocked(cfg, fast, log, e))) == Some(Quiet(cfg, log + [e]))
  {
    match e
    case Registered(t, id) => RegisterRun(cfg, fast, log, t, id);
    case WasShutDown(t, id) => ShutDownRun(cfg, fast, log, t, id);
    case Posted(t, target, task, accepted) => PostRun(cfg, fast, log, t, target, task, accepted);
    case Joined(t) => JoinRun(cfg, fast, log, t);
  }

  lemma {:induction false} ScheduleRuns(cfg: Config, fast: bool, log: seq<Event>)
    requires cfg.Valid() && Legal(cfg, log)
    ensures Exec(cfg, fast, Init(cfg), Schedule(cfg, fast, log)) == Some(Quiet(cfg, log))
  {
    if log == [] {
      assert JoinedBy(log) == {};
    } else {
      var before, e := log[..|log| - 1], log[|log| - 1];
      assert before + [e] == log;
      ScheduleRuns(cfg, fast, before);
      Append(cfg, before, e);
      EventRun(cfg, fast, before, e);
      ExecAppend(cfg, fast, Init(cfg), Schedule(cfg, fast, before), StepsFor(e, Unlocked(cfg, fast, before, e)));
    }
  }

  /** The second main result: whatever PostTaskHelper answered and enqueued without the lock, in
      whatever interleaving, a PostTaskHelper that always takes it answers and enqueues too; and the
      other way round. */
  lemma FastRunsAreLockedRuns(cfg: Config, fast: bool, s: System)
    requires cfg.Valid() && Reachable(cfg, fast, s)
    ensures Reachable(cfg, !fast, Quiet(cfg, s.log))
    ensures Shaped(cfg, s) && Quiet(cfg, s.log).registry == Abs(cfg, s) && Quiet(cfg, s.log).joined == s.joined
  {
    ReachableStates(cfg, fast, s);
    ScheduleRuns(cfg, !fast, s.log);
  }

  ghost predicate IsLogOfRun(cfg: Config, fast: bool, log: seq<Event>)
    requires cfg.Valid()
  {
    exists s :: Reachable(cfg, fast, s) && s.log == log
  }

  /** With the optimisation or without, the logs of runs are the legal histories, all of them. */
  lemma LogsAreLegalHistories(cfg: Config, fast: bool, log: seq<Event>)
    requires cfg.Valid()
    ensures IsLogOfRun(cfg, fast, log) <==> Legal(cfg, log)
  {
    if IsLogOfRun(cfg, fast, log) {
      var s :| Reachable(cfg, fast, s) && s.log == log;
      ReachableStates(cfg, fast, s);
    }
    if Legal(cfg, log) {
      ScheduleRuns(cfg, fast, log);
      assert Reachable(cfg, fast, Quiet(cfg, log));
    }
  }

  // ---------------------------------------------------------------------------------------
  // What a legal history says about tasks
  // ---------------------------------------------------------------------------------------

  /** The tasks accepted for `target`, in the order they were posted. */
  function Accepted(log: seq<Event>, target: nat): seq<Task> {
    if log == [] then []
    else
      var e := log[|log| - 1];
      Accepted(log[..|log| - 1], target) + (if e.Posted? && e.accepted && e.target == target then [e.task] else [])
  }

  predicate EverRegistered(log: seq<Event>, id: nat) {
    exists e :: e in log && e.Registered? && e.id == id
  }

  predicate EverShutDown(log: seq<Event>, id: nat) {
    exists e :: e in log && e.WasShutDown? && e.id == id
  }

  /** The state of an ID in terms of what has happened to it, and each ID's queue in terms of posts. */
  lemma {:induction false} RegistryFromHistory(cfg: Config, log: seq<Event>, id: nat)
    requires Legal(cfg, log) && id < |cfg.owner|
    ensures Replay(cfg, log).states[id] ==
            if EverShutDown(log, id) then SHUTDOWN else if EverRegistered(log, id) then RUNNING else UNINITIALIZED
    ensures EverShutDown(log, id) ==> EverRegistered(log, id)
    ensures Replay(cfg, log).queues[id] == Accepted(log, id)
    ensures Replay(cfg, log).runners[id] == if EverRegistered(log, id) then Some(cfg.owner[id]) else None
  {
    if log != [] {
      var before, e := log[..|log| - 1], log[|log| - 1];
      assert log == before + [e];
      RegistryFromHistory(cfg, before, id);
      assert forall x :: x in log <==> x in before || x == e;
      assert EverRegistered(log, id) <==> EverRegistered(before, id) || (e.Registered? && e.id == id);
      assert EverShutDown(log, id) <==> EverShutDown(before, id) || (e.WasShutDown? && e.id == id);
    }
  }

  lemma {:induction false} LegalPrefix(cfg: Config, log: seq<Event>, k: nat)
    requires Legal(cfg, log) && k <= |log|
    ensures Legal(cfg, log[..k])
    ensures k < |log| ==> EventOk(cfg, Replay(cfg, log[..k]), JoinedBy(log[..k]), log[k])
    decreases |log|
  {
    if k == |log| {
      assert log[..k] == log;
    } else {
      var before := log[..|log| - 1];
      if k < |before| { assert before[..k] == log[..k]; LegalPrefix(cfg, before, k); }
    }
  }

  /** The third main result, over whole runs: a post is accepted exactly when its target had been
      registered and not yet shut down; so nothing is accepted after shut-down. Every accepted task
      is in its target's queue once, in posting order, and nothing else is. */
  lemma PostsOverWholeRuns(cfg: Config, fast: bool, s: System, k: nat)
    requires cfg.Valid() && Reachable(cfg, fast, s)
    requires k < |s.log| && s.log[k].Posted?
    ensures var target := s.log[k].target;
            && target < |cfg.owner|
            && (s.log[k].accepted <==> EverRegistered(s.log[..k], target) && !EverShutDown(s.log[..k], target))
            && target < |s.registry.queues| && s.registry.queues[target] == Accepted(s.log, target)
  {
    ReachableStates(cfg, fast, s);
    LegalPrefix(cfg, s.log, k);
    RegistryFromHistory(cfg, s.log[..k], s.log[k].target);
    RegistryFromHistory(cfg, s.log, s.log[k].target);
  }

  // ---------------------------------------------------------------------------------------
  // The lifetime discipline is what the main loop and the sub-threads do
  // ---------------------------------------------------------------------------------------

  /** Thread `i` owns ID `i`; thread 0 is the main thread. */
  predicate MainLoopConfig(cfg: Config) {
    && |cfg.owner| > 0 && cfg.Valid()
    && forall i | 0 <= i < |cfg.owner| :: cfg.owner[i] == i
  }

  function ScriptLength(n: nat): int { 3 * n - 1 }

  /** When the entry of ID `i` is shut down. */
  function DownAt(n: nat, i: nat): int { n + 2 * (n - 1 - i) }

  predicate IsScript(n: nat, p: nat, e: Event) {
    if p < n then e == Registered(0, p)
    else
      match e
      case WasShutDown(t, i) => t == i < n && p == DownAt(n, i)
      case Joined(t) => 0 < t < n && p == DownAt(n, t) + 1
      case _ => false
  }

  /** The script, event by event rather than by position. */
  lemma ScriptEvents(n: nat, p: nat)
    requires p < ScriptLength(n)
    ensures IsScript(n, p, ScriptAt(n, p))
  {
    if n <= p {
      var q := p - n;
      assert q == 2 * (q / 2) + q % 2;
    }
  }

  /** The p-th lifecycle event: the main thread registers itself and then each sub-thread; on the
      way down each sub-thread, last one first, shuts its entry down in CleanUp and is joined; the
      main thread's own entry goes last. */
  function ScriptAt(n: nat, p: nat): Event
    requires p < ScriptLength(n)
  {
    if p < n then Registered(0, p)
    else
      var i := n - 1 - (p - n) / 2;
      if (p - n) % 2 == 0 then WasShutDown(i, i) else Joined(i)
  }

  /** The lifecycle events of `log` are the first `p` of the script, with posts in between. */
  predicate FollowsScript(n: nat, log: seq<Event>, p: nat) {
    if log == [] then p == 0
    else
      var before, e := log[..|log| - 1], log[|log| - 1];
      if e.Posted? then FollowsScript(n, before, p)
      else 0 < p <= ScriptLength(n) && FollowsScript(n, before, p - 1) && e == ScriptAt(n, p - 1)
  }

  /** What has become of ID `i` and its thread after `p` events of the script. */
  predicate ScriptStateAt(cfg: Config, log: seq<Event>, p: nat, i: nat)
    requires i < |cfg.owner|
  {
    var down := DownAt(|cfg.owner|, i);
    && Replay(cfg, log).states[i] == (if p <= i then UNINITIALIZED else if down < p then SHUTDOWN else RUNNING)
    && (i in JoinedBy(log) <==> 0 < i && down + 1 < p)
  }

  lemma ScriptStep(cfg: Config, before: seq<Event>, e: Event, p: nat, i: nat)
    requires MainLoopConfig(cfg) && p < ScriptLength(|cfg.owner|) && IsScript(|cfg.owner|, p, e)
    requires i < |cfg.owner| && ScriptStateAt(cfg, before, p, i)
    ensures ScriptStateAt(cfg, before + [e], p + 1, i)
  {
    Append(cfg, before, e);
  }

  lemma ScriptPost(cfg: Config, before: seq<Event>, e: Event, p: nat, i: nat)
    requires e.Posted? && i < |cfg.owner| && ScriptStateAt(cfg, before, p, i)
    ensures ScriptStateAt(cfg, before + [e], p, i)
  {
    Append(cfg, before, e);
  }

  lemma {:induction false} ScriptState(cfg: Config, log: seq<Event>, p: nat, i: nat)
    requires MainLoopConfig(cfg) && FollowsScript(|cfg.owner|, log, p) && i < |cfg.owner|
    ensures ScriptStateAt(cfg, log, p, i)
    decreases |log|
  {
    if log == [] {
      assert JoinedBy(log) == {};
    } else {
      var before, e := log[..|log| - 1], log[|log| - 1];
      assert before + [e] == log;
      if e.Posted? {
        ScriptState(cfg, before, p, i);
        ScriptPost(cfg, before, e, p, i);
      } else {
        ScriptState(cfg, before, p - 1, i);
        ScriptEvents(|cfg.owner|, p - 1);
        ScriptStep(cfg, before, e, p - 1, i);
      }
    }
  }

  /** The fourth main result: at every point of the main loop's life, whatever has been posted so
      far, the next registration, shut-down or join it performs obeys the discipline. */
  lemma MainLoopKeepsDiscipline(cfg: Config, log: seq<Event>, p: nat)
    requires MainLoopConfig(cfg) && FollowsScript(|cfg.owner|, log, p) && p < ScriptLength(|cfg.owner|)
    ensures EventOk(cfg, Replay(cfg, log), JoinedBy(log), ScriptAt(|cfg.owner|, p))
  {
    ScriptEvents(|cfg.owner|, p);
    ScriptState(cfg, log, p, 0);
    assert cfg.owner[0] == 0;
    match ScriptAt(|cfg.owner|, p)
    case Registered(_, id) =>
      forall i | 0 <= i <= id ensures Replay(cfg, log).states[i] == if i < id then RUNNING else UNINITIALIZED {
        ScriptState(cfg, log, p, i);
      }
    case WasShutDown(t, id) =>
      assert cfg.owner[id] == id;
      ScriptState(cfg, log, p, id);
      forall j | id < j < |cfg.owner| ensures cfg.owner[j] in JoinedBy(log) {
        ScriptState(cfg, log, p, j);
        assert cfg.owner[j] == j;
      }
    case Joined(t) =>
      assert cfg.owner[t] == t;
      ScriptState(cfg, log, p, t);
  }
}
