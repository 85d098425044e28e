/** The registry of named threads (web/web_thread_impl.cc): what one call does when no other
    call overlaps it. `Registry` is the value of the global arrays, the functions on it are the
    atomic operations, and the class updates the arrays in place. WebThreadInterleaving takes
    the same operations apart into the steps that other threads can come between. */
module WebThreadRegistry {
  import opened Wrappers

  /** A physical thread. */
  type Tid = nat

  datatype Task = Task(name: nat, delay: int, nestable: bool)

  datatype WebThreadState = UNINITIALIZED | RUNNING | SHUTDOWN

  /** Entry `i` belongs to WebThread::ID `i`: its state, the thread its task runner belongs to,
      and the tasks that runner was handed, in order. */
  datatype Registry = Registry(states: seq<WebThreadState>, runners: seq<Option<Tid>>, queues: seq<seq<Task>>) {
    predicate WellFormed() {
      |states| == |runners| == |queues|
    }

    /** A runner is there exactly when the state is RUNNING or SHUTDOWN. */
    predicate Valid() {
      && WellFormed()
      && forall i | 0 <= i < |states| :: runners[i].Some? <==> states[i] != UNINITIALIZED
    }
  }

  function Empty(n: nat): (r: Registry)
    ensures r.Valid()
  {
    Registry(seq(n, _ => UNINITIALIZED), seq(n, _ => None), seq(n, _ => []))
  }

  function Register(r: Registry, id: nat, t: Tid): Registry
    requires r.WellFormed() && id < |r.states|
  {
    r.(states := r.states[id := RUNNING], runners := r.runners[id := Some(t)])
  }

  function ShutDown(r: Registry, id: nat): Registry
    requires r.WellFormed() && id < |r.states|
  {
    r.(states := r.states[id := SHUTDOWN])
  }

  function Post(r: Registry, id: nat, task: Task): Registry
    requires r.WellFormed() && id < |r.states|
  {
    if r.states[id] == RUNNING then r.(queues := r.queues[id := r.queues[id] + [task]]) else r
  }

  /** The ID `t` runs under: the first entry whose runner belongs to `t`. */
  function CurrentId(runners: seq<Option<Tid>>, t: Tid): (c: Option<nat>)
    ensures c.Some? ==> c.value < |runners| && runners[c.value] == Some(t) && Some(t) !in runners[..c.value]
    ensures c.None? ==> Some(t) !in runners
  {
    CurrentIdFrom(runners, t, 0)
  }

  lemma CurrentIdUnique(runners: seq<Option<Tid>>, t: Tid, i: nat)
    requires i < |runners| && runners[i] == Some(t) && Some(t) !in runners[..i]
    ensures CurrentId(runners, t) == Some(i)
  {
    var c := CurrentId(runners, t);
  }

  function CurrentIdFrom(runners: seq<Option<Tid>>, t: Tid, i: nat): (c: Option<nat>)
    requires i <= |runners|
    ensures c.Some? ==> i <= c.value < |runners| && runners[c.value] == Some(t) && Some(t) !in runners[i..c.value]
    ensures c.None? ==> Some(t) !in runners[i..]
    decreases |runners| - i
  {
    if i == |runners| then None
    else if runners[i] == Some(t) then Some(i)
    else
      assert runners[i..] == [runners[i]] + runners[i + 1..];
      var c := CurrentIdFrom(runners, t, i + 1);
      assert c.Some? ==> runners[i..c.value] == [runners[i]] + runners[i + 1..c.value];
      c
  }

  /** Whether PostTaskHelper on thread `t` may leave the lock alone. */
  predicate TargetOutlives(runners: seq<Option<Tid>>, t: Tid, id: nat) {
    CurrentId(runners, t).Some? && id <= CurrentId(runners, t).value
  }

  /** It may when `t` has a runner, and none under a longer-lived ID than the target. */
  lemma OutlivesExactlyWhen(runners: seq<Option<Tid>>, t: Tid, id: nat)
    requires id <= |runners|
    ensures TargetOutlives(runners, t, id) <==> Some(t) in runners && Some(t) !in runners[..id]
  {
    var c := CurrentId(runners, t);
    if c.Some? {
      if id <= c.value {
        assert runners[..id] == runners[..c.value][..id];
      } else {
        assert runners[..id][c.value] == Some(t);
      }
    }
  }

  /** The globals, with the arrays of the source and its lock, which is not re-entrant. */
  class WebThreadGlobals {
    const states: array<WebThreadState>
    const taskRunners: array<Option<Tid>>
    const queues: array<seq<Task>>
    var lockHeld: bool
    ghost var acquisitions: nat

    ghost predicate Valid()
      reads this, states, taskRunners, queues
    {
      && states.Length == taskRunners.Length == queues.Length
      && !lockHeld
      && Abs().Valid()
    }

    ghost function Abs(): Registry
      reads states, taskRunners, queues
    {
      Registry(states[..], taskRunners[..], queues[..])
    }

    constructor (idCount: nat)
      ensures Valid() && Abs() == Empty(idCount) && acquisitions == 0
      ensures fresh(states) && fresh(taskRunners) && fresh(queues)
    {
      states := new WebThreadState[idCount](_ => UNINITIALIZED);
      taskRunners := new Option<Tid>[idCount](_ => None);
      queues := new seq<Task>[idCount](_ => []);
      lockHeld, acquisitions := false, 0;
    }

    method Acquire()
      requires !lockHeld
      modifies this
      ensures lockHeld && acquisitions == old(acquisitions) + 1
    {
      lockHeld, acquisitions := true, acquisitions + 1;
    }

    method Release()
      requires lockHeld
      modifies this
      ensures !lockHeld && acquisitions == old(acquisitions)
    {
      lockHeld := false;
    }

    /** The constructor of WebThreadImpl. */
    method RegisterThread(id: nat, t: Tid)
      requires Valid() && id < states.Length && states[id] == UNINITIALIZED
      modifies this, states, taskRunners
      ensures Valid() && Abs() == Register(old(Abs()), id, t)
      ensures acquisitions == old(acquisitions) + 1
    {
      Acquire();
      states[id] := RUNNING;
      assert taskRunners[id].None?;
      taskRunners[id] := Some(t);
      Release();
    }

    /** The destructor of WebThreadImpl: the runner stays. */
    method ShutDownThread(id: nat)
      requires Valid() && id < states.Length && states[id] == RUNNING
      modifies this, states
      ensures Valid() && Abs() == ShutDown(old(Abs()), id)
      ensures acquisitions == old(acquisitions) + 1
    {
      Acquire();
      states[id] := SHUTDOWN;
      Release();
    }

    /** The first ID whose runner belongs to the calling thread `t`. */
    method GetCurrentThreadIdentifier(t: Tid) returns (found: bool, identifier: nat)
      requires Valid()
      modifies this
      ensures Valid() && Abs() == old(Abs()) && acquisitions == old(acquisitions) + 1
      ensures CurrentId(taskRunners[..], t) == if found then Some(identifier) else None
    {
      Acquire();
      identifier, found := 0, false;
      for i := 0 to taskRunners.Length
        invariant Some(t) !in taskRunners[..i] && !found
        invariant lockHeld && acquisitions == old(acquisitions) + 1 && Abs() == old(Abs())
      {
        if taskRunners[i] == Some(t) {
          identifier, found := i, true;
          CurrentIdUnique(taskRunners[..], t, i);
          break;
        }
      }
      assert taskRunners[..] == taskRunners[..taskRunners.Length];
      Release();
    }

    method IsThreadInitialized(id: nat) returns (running: bool)
      requires Valid() && id < states.Length
      modifies this
      ensures Valid() && Abs() == old(Abs())
      ensures running <==> states[id] == RUNNING
    {
      Acquire();
      running := states[id] == RUNNING;
      Release();
    }

    /** True from registration on, also after shut-down. */
    method CurrentlyOn(id: nat, t: Tid) returns (on: bool)
      requires Valid() && id < states.Length
      modifies this
      ensures Valid() && Abs() == old(Abs())
      ensures on <==> states[id] != UNINITIALIZED && taskRunners[id] == Some(t)
    {
      Acquire();
      on := taskRunners[id].Some? && taskRunners[id].value == t;
      Release();
    }

    /** Takes the lock a second time exactly when the target does not outlive the current thread. */
    method PostTaskHelper(t: Tid, identifier: nat, task: Task) returns (acceptingTasks: bool)
      requires Valid() && identifier < states.Length
      modifies this, queues
      ensures Valid() && Abs() == Post(old(Abs()), identifier, task)
      ensures acceptingTasks <==> states[identifier] == RUNNING
      ensures acquisitions == old(acquisitions) +
                if Some(t) in taskRunners[..] && Some(t) !in taskRunners[..identifier] then 1 else 2
    {
      OutlivesExactlyWhen(taskRunners[..], t, identifier);
      assert taskRunners[..][..identifier] == taskRunners[..identifier];
      var found, current := GetCurrentThreadIdentifier(t);
      var targetThreadOutlivesCurrent := found && current >= identifier;
      if !targetThreadOutlivesCurrent {
        Acquire();
      }
      acceptingTasks := states[identifier] == RUNNING;
      if acceptingTasks {
        var taskRunner := taskRunners[identifier];
        assert taskRunner.Some?;
        if task.nestable {
          queues[identifier] := queues[identifier] + [Task(task.name, task.delay, true)];
        } else {
          queues[identifier] := queues[identifier] + [Task(task.name, task.delay, false)];
        }
      }
      if !targetThreadOutlivesCurrent {
        Release();
      }
    }
  }
}
