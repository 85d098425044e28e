/** PostTaskHelper, registration and shut-down taken apart into the steps other threads can come
    between, for any number of IDs and threads. With `fast` set, PostTaskHelper leaves the lock
    alone when the target outlives the current thread; without it, it always locks.

    A step under the lock that only reads (the scan in GetCurrentThreadIdentifier) is one step.
    Each write to the globals is a step of its own, and so are PostTaskHelper's two unlocked reads. */
module WebThreadInterleaving {
  import opened Wrappers
  import opened WebThreadRegistry

  /** `owner[id]` is the thread whose task runner is registered under `id`. IDs may share a thread. */
  datatype Config = Config(owner: seq<Tid>, threads: nat) {
    predicate Valid() {
      forall i | 0 <= i < |owner| :: owner[i] < threads
    }
  }

  /** What a run has done so far, in the order in which it took effect. */
  datatype Event =
    | Registered(actor: Tid, id: nat)
    | WasShutDown(actor: Tid, id: nat)
    | Joined(thread: Tid)
    | Posted(actor: Tid, target: nat, task: Task, accepted: bool)

  /** Where a thread is. `current` is the ID that allows it to go without the lock. */
  datatype Pc =
    | Idle
    | Scanning(target: nat, task: Task)
    | Waiting(target: nat, task: Task)
    | Reading(target: nat, task: Task, current: Option<nat>)
    | Enqueuing(target: nat, task: Task, current: Option<nat>)
    | WritingRunning(id: nat)
    | WritingRunner(id: nat)
    | WritingShutDown(id: nat)
    | Releasing
  {
    predicate HoldsLock() {
      match this
      case Idle => false
      case Scanning(_, _) => false
      case Waiting(_, _) => false
      case Reading(_, _, c) => c.None?
      case Enqueuing(_, _, c) => c.None?
      case _ => true
    }

    /** About to write `states[e]` or `task_runners[e]`. */
    predicate Writes(e: nat) {
      (WritingRunning? || WritingRunner? || WritingShutDown?) && id == e
    }

    /** About to read `states[e]` or `task_runners[e]`. */
    predicate Reads(e: nat) {
      (Reading? || Enqueuing?) && target == e
    }
  }

  datatype System = System(
    registry: Registry,
    lock: Option<Tid>,
    pcs: seq<Pc>,
    joined: set<Tid>,
    log: seq<Event>)

  function Init(cfg: Config): System {
    System(Empty(|cfg.owner|), None, seq(cfg.threads, _ => Idle), {}, [])
  }

  datatype Step =
    | EnterPost(t: Tid, target: nat, task: Task)
    | Scan(t: Tid)
    | Acquire(t: Tid)
    | ReadState(t: Tid)
    | Enqueue(t: Tid)
    | BeginRegister(t: Tid, id: nat)
    | WriteRunning(t: Tid)
    | WriteRunner(t: Tid)
    | BeginShutDown(t: Tid, id: nat)
    | WriteShutDown(t: Tid)
    | Release(t: Tid)
    | Join(t: Tid)

  /** IDs are registered in order, each once. */
  predicate MayRegister(states: seq<WebThreadState>, id: nat) {
    && id < |states| && states[id] == UNINITIALIZED
    && forall i | 0 <= i < id :: states[i] != UNINITIALIZED
  }

  /** An entry is shut down by its own thread, once every other thread that is registered under a
      shorter-lived ID has been joined. */
  predicate MayShutDown(cfg: Config, states: seq<WebThreadState>, joined: set<Tid>, t: Tid, id: nat)
    requires |states| == |cfg.owner|
  {
    && id < |states| && states[id] == RUNNING && cfg.owner[id] == t
    && forall j | id < j < |states| && states[j] != UNINITIALIZED && cfg.owner[j] != t :: cfg.owner[j] in joined
  }

  predicate Shaped(cfg: Config, s: System) {
    && cfg.Valid()
    && s.registry.WellFormed() && |s.registry.states| == |cfg.owner|
    && |s.pcs| == cfg.threads
  }

  predicate Enabled(cfg: Config, s: System, a: Step)
    requires Shaped(cfg, s)
  {
    && a.t < cfg.threads && a.t !in s.joined
    && var pc := s.pcs[a.t];
    match a
    case EnterPost(_, target, _) => pc.Idle? && target < |cfg.owner|
    case Scan(_) => pc.Scanning? && s.lock.None?
    case Acquire(_) => pc.Waiting? && s.lock.None?
    case ReadState(_) => pc.Reading? && pc.target < |cfg.owner|
    case Enqueue(_) => pc.Enqueuing? && pc.target < |cfg.owner|
    case BeginRegister(_, id) => pc.Idle? && s.lock.None? && MayRegister(s.registry.states, id)
    case WriteRunning(_) => pc.WritingRunning? && pc.id < |cfg.owner|
    case WriteRunner(_) => pc.WritingRunner? && pc.id < |cfg.owner|
    case BeginShutDown(t, id) => pc.Idle? && s.lock.None? && MayShutDown(cfg, s.registry.states, s.joined, t, id)
    case WriteShutDown(_) => pc.WritingShutDown? && pc.id < |cfg.owner|
    case Release(_) => pc.Releasing?
    case Join(_) => pc.Idle?
  }

  function AfterPost(current: Option<nat>): Pc {
    if current.None? then Releasing else Idle
  }

  function Apply(cfg: Config, fast: bool, s: System, a: Step): (s': System)
    requires Shaped(cfg, s) && Enabled(cfg, s, a)
    ensures Shaped(cfg, s')
  {
    var t, pc, r := a.t, s.pcs[a.t], s.registry;
    match a
    case EnterPost(_, target, task) => s.(pcs := s.pcs[t := Scanning(target, task)])
    case Scan(_) =>
      if fast && TargetOutlives(r.runners, t, pc.target)
      then s.(pcs := s.pcs[t := Reading(pc.target, pc.task, CurrentId(r.runners, t))])
      else s.(pcs := s.pcs[t := Waiting(pc.target, pc.task)])
    case Acquire(_) => s.(pcs := s.pcs[t := Reading(pc.target, pc.task, None)], lock := Some(t))
    case ReadState(_) =>
      if r.states[pc.target] == RUNNING
      then s.(pcs := s.pcs[t := Enqueuing(pc.target, pc.task, pc.current)])
      else s.(pcs := s.pcs[t := AfterPost(pc.current)], log := s.log + [Posted(t, pc.target, pc.task, false)])
    case Enqueue(_) =>
      s.(registry := r.(queues := r.queues[pc.target := r.queues[pc.target] + [pc.task]]),
         pcs := s.pcs[t := AfterPost(pc.current)],
         log := s.log + [Posted(t, pc.target, pc.task, true)])
    case BeginRegister(_, id) => s.(pcs := s.pcs[t := WritingRunning(id)], lock := Some(t))
    case WriteRunning(_) =>
      s.(registry := r.(states := r.states[pc.id := RUNNING]), pcs := s.pcs[t := WritingRunner(pc.id)])
    case WriteRunner(_) =>
      s.(registry := r.(runners := r.runners[pc.id := Some(cfg.owner[pc.id])]),
         pcs := s.pcs[t := Releasing], log := s.log + [Registered(t, pc.id)])
    case BeginShutDown(_, id) => s.(pcs := s.pcs[t := WritingShutDown(id)], lock := Some(t))
    case WriteShutDown(_) =>
      s.(registry := r.(states := r.states[pc.id := SHUTDOWN]),
         pcs := s.pcs[t := Releasing], log := s.log + [WasShutDown(t, pc.id)])
    case Release(_) => s.(pcs := s.pcs[t := Idle], lock := None)
    case Join(_) => s.(joined := s.joined + {t}, log := s.log + [Joined(t)])
  }

  /** The state after `steps`, or None when one of them is not enabled. */
  function Exec(cfg: Config, fast: bool, s: System, steps: seq<Step>): (r: Option<System>)
    requires Shaped(cfg, s)
    ensures r.Some? ==> Shaped(cfg, r.value)
    decreases |steps|
  {
    if steps == [] then Some(s)
    else if Enabled(cfg, s, steps[0]) then Exec(cfg, fast, Apply(cfg, fast, s, steps[0]), steps[1..])
    else None
  }

  ghost predicate Reachable(cfg: Config, fast: bool, s: System)
    requires cfg.Valid()
  {
    exists steps: seq<Step> :: Exec(cfg, fast, Init(cfg), steps) == Some(s)
  }

  // ---------------------------------------------------------------------------------------
  // The invariant
  // ---------------------------------------------------------------------------------------

  predicate LockInv(s: System) {
    forall t | 0 <= t < |s.pcs| :: s.lock == Some(t) <==> s.pcs[t].HoldsLock()
  }

  predicate JoinedInv(s: System) {
    forall t | 0 <= t < |s.pcs| :: t in s.joined ==> s.pcs[t].Idle?
  }

  /** The IDs registered so far are the longest-lived ones. */
  predicate PrefixInv(states: seq<WebThreadState>) {
    forall i, j | 0 <= i < j < |states| :: states[j] != UNINITIALIZED ==> states[i] != UNINITIALIZED
  }

  /** The thread that holds the lock is between the two writes of registering `id`. */
  predicate BetweenWrites(s: System, id: nat) {
    s.lock.Some? && s.lock.value < |s.pcs| && s.pcs[s.lock.value] == WritingRunner(id)
  }

  predicate RunnerInv(cfg: Config, s: System)
    requires Shaped(cfg, s)
  {
    && (forall i | 0 <= i < |cfg.owner| ::
          s.registry.runners[i].Some? ==>
            s.registry.states[i] != UNINITIALIZED && s.registry.runners[i].value == cfg.owner[i])
    && (forall i | 0 <= i < |cfg.owner| ::
          s.registry.runners[i].None? && s.registry.states[i] != UNINITIALIZED ==> BetweenWrites(s, i))
  }

  /** The right to go without the lock: `t` runs under an ID no longer-lived than the target. */
  predicate OutlivedInv(r: Registry, t: Tid, target: nat, current: Option<nat>)
    requires r.WellFormed()
  {
    current.Some? ==> target <= current.value < |r.runners| && r.runners[current.value] == Some(t)
  }

  /** What is known at each place in the code; the source's assertions on the registry follow. */
  predicate PcInv(cfg: Config, s: System, t: Tid)
    requires Shaped(cfg, s) && t < cfg.threads
  {
    var r, n := s.registry, |cfg.owner|;
    match s.pcs[t]
    case Idle => true
    case Scanning(target, _) => target < n
    case Waiting(target, _) => target < n
    case Reading(target, _, current) => target < n && OutlivedInv(r, t, target, current)
    case Enqueuing(target, _, current) =>
      target < n && OutlivedInv(r, t, target, current) && r.states[target] == RUNNING && r.runners[target].Some?
    case WritingRunning(id) => MayRegister(r.states, id) && r.runners[id].None?
    case WritingRunner(id) =>
      && id < n && r.states[id] == RUNNING && r.runners[id].None?
      && forall j | id < j < n :: r.states[j] == UNINITIALIZED
    case WritingShutDown(id) => MayShutDown(cfg, r.states, s.joined, t, id)
    case Releasing => true
  }

  predicate Inv(cfg: Config, s: System) {
    && Shaped(cfg, s)
    && LockInv(s) && JoinedInv(s) && PrefixInv(s.registry.states) && RunnerInv(cfg, s)
    && forall t | 0 <= t < cfg.threads :: PcInv(cfg, s, t)
  }

  /** Two threads are about to touch the same entry, and at least one of them to write it. */
  ghost predicate Race(s: System) {
    exists a, b, e: nat :: 0 <= a < |s.pcs| && 0 <= b < |s.pcs| && a != b && RaceOn(s, a, b, e)
  }

  predicate RaceOn(s: System, a: Tid, b: Tid, e: nat)
    requires a < |s.pcs| && b < |s.pcs|
  {
    s.pcs[a].Writes(e) && (s.pcs[b].Writes(e) || s.pcs[b].Reads(e))
  }

  lemma NoRaceOn(cfg: Config, s: System, a: Tid, b: Tid, e: nat)
    requires Inv(cfg, s) && a < cfg.threads && b < cfg.threads && a != b
    ensures !RaceOn(s, a, b, e)
  {
    assert PcInv(cfg, s, a) && PcInv(cfg, s, b);
  }

  lemma InitInv(cfg: Config)
    requires cfg.Valid()
    ensures Inv(cfg, Init(cfg))
  {
  }

  /** A thread that does not write leaves what every other thread knows intact. */
  lemma PcInvKeptByOthers(cfg: Config, fast: bool, s: System, a: Step, u: Tid)
    requires Inv(cfg, s) && Enabled(cfg, s, a) && u < cfg.threads && u != a.t
    requires !a.WriteRunning? && !a.WriteRunner? && !a.WriteShutDown?
    ensures PcInv(cfg, Apply(cfg, fast, s, a), u)
  {
    assert PcInv(cfg, s, u) && PcInv(cfg, s, a.t);
  }

  /** Nor does one that does, as it holds the lock and nobody else is at the entry. */
  lemma PcInvKept(cfg: Config, fast: bool, s: System, a: Step, u: Tid)
    requires Inv(cfg, s) && Enabled(cfg, s, a) && u < cfg.threads && u != a.t
    ensures PcInv(cfg, Apply(cfg, fast, s, a), u)
  {
    if a.WriteRunning? || a.WriteRunner? || a.WriteShutDown? {
      assert PcInv(cfg, s, u) && PcInv(cfg, s, a.t);
      assert s.lock == Some(a.t) && !s.pcs[u].HoldsLock();
      NoRaceOn(cfg, s, a.t, u, s.pcs[a.t].id);
    } else {
      PcInvKeptByOthers(cfg, fast, s, a, u);
    }
  }

  lemma PcInvOwn(cfg: Config, fast: bool, s: System, a: Step)
    requires Inv(cfg, s) && Enabled(cfg, s, a)
    ensures PcInv(cfg, Apply(cfg, fast, s, a), a.t)
  {
    assert PcInv(cfg, s, a.t);
    var pc := s.pcs[a.t];
    if a.ReadState? && s.registry.states[pc.target] == RUNNING && s.registry.runners[pc.target].None? {
      NoRaceOn(cfg, s, s.lock.value, a.t, pc.target);
    }
  }

  lemma StepRegistry(cfg: Config, fast: bool, s: System, a: Step)
    requires Inv(cfg, s) && Enabled(cfg, s, a)
    ensures PrefixInv(Apply(cfg, fast, s, a).registry.states) && RunnerInv(cfg, Apply(cfg, fast, s, a))
  {
    assert PcInv(cfg, s, a.t);
  }

  lemma StepLock(cfg: Config, fast: bool, s: System, a: Step)
    requires Inv(cfg, s) && Enabled(cfg, s, a)
    ensures LockInv(Apply(cfg, fast, s, a)) && JoinedInv(Apply(cfg, fast, s, a))
  {
    assert PcInv(cfg, s, a.t);
  }

  lemma StepInv(cfg: Config, fast: bool, s: System, a: Step)
    requires Inv(cfg, s) && Enabled(cfg, s, a)
    ensures Inv(cfg, Apply(cfg, fast, s, a))
  {
    StepLock(cfg, fast, s, a);
    StepRegistry(cfg, fast, s, a);
    forall u | 0 <= u < cfg.threads ensures PcInv(cfg, Apply(cfg, fast, s, a), u) {
      if u == a.t { PcInvOwn(cfg, fast, s, a); } else { PcInvKept(cfg, fast, s, a, u); }
    }
  }
}
