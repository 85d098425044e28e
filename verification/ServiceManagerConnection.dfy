/** Shutting down the IO thread side of a service manager connection
    (web/service_manager_connection_impl.cc). A context and the observer that it registers with the
    message loop call each other; the observer deletes itself; the context is reference counted. */
module ServiceManagerConnection {
  import opened Wrappers

  datatype IoTask = StartOnIo | ShutDownOnIo

  // ---------------------------------------------------------------------------------------
  // What each entry point comes to
  // ---------------------------------------------------------------------------------------

  /** The connection as seen from outside any call. */
  datatype Connection = Connection(
    owned: bool,          // ServiceManagerConnectionImpl still holds its reference
    started: bool,
    loopAlive: bool,
    queue: seq<IoTask>,   // each task holds a reference to the context
    refs: nat,
    destroyed: bool,      // the context
    weakValid: bool,      // the weak pointer handed to the observer still leads to the context
    bound: bool,          // service_binding_ is set
    bindingRefs: nat,     // references that resetting service_binding_ releases
    factories: nat,       // open factory bindings
    observed: bool,       // an observer is registered with the message loop
    created: nat,         // observers created so far
    deleted: nat)         // observers deleted so far

  const Fresh := Connection(true, false, true, [], 1, false, false, false, 0, 0, false, 0, 0)

  /** The context goes when its last reference does. */
  function DropRefs(c: Connection, n: nat): Connection
    requires n <= c.refs
  {
    if c.refs == n then c.(refs := 0, destroyed := true, weakValid := false, bound := false, factories := 0)
    else c.(refs := c.refs - n)
  }

  function Started(c: Connection, bindingRefs: nat): Connection {
    c.(bound := true, bindingRefs := bindingRefs, refs := c.refs + bindingRefs,
       weakValid := true, observed := true, created := c.created + 1)
  }

  /** ShutDownOnIOThread up to the moment the keepalive goes. */
  function ShutDown(c: Connection): Connection
    requires c.bindingRefs <= c.refs
  {
    c.(weakValid := false, bound := false, factories := 0, refs := c.refs - c.bindingRefs, bindingRefs := 0,
       observed := false, deleted := if c.observed then c.deleted + 1 else c.deleted)
  }

  /** WillDestroyCurrentMessageLoop, for the observer if there is one. */
  function Notified(c: Connection): Connection
    requires c.bindingRefs <= c.refs
  {
    if !c.observed then c
    else if c.weakValid then DropRefs(ShutDown(c), 0)
    else c.(observed := false, deleted := c.deleted + 1)
  }

  function QueueDropped(c: Connection): Connection
    requires |c.queue| <= c.refs
  {
    if c.queue == [] then c else DropRefs(c.(queue := []), |c.queue|)
  }

  /** What is so between calls. */
  predicate Settled(c: Connection) {
    && c.refs == (if c.owned then 1 else 0) + |c.queue| + c.bindingRefs
    && (c.destroyed <==> c.refs == 0)
    && (!c.destroyed ==> c.weakValid == c.bound == c.observed)
    && (c.destroyed ==> !c.weakValid && !c.bound)
    && (!c.bound ==> c.factories == 0 && c.bindingRefs == 0)
    && c.created == c.deleted + (if c.observed then 1 else 0)
    && (!c.loopAlive ==> c.queue == [] && !c.observed && c.bindingRefs == 0)
    && StartedOnce(c)
  }

  /** The start task is queued at most once and first; no observer is created before it runs. */
  predicate StartedOnce(c: Connection) {
    && (forall i | 0 <= i < |c.queue| :: c.queue[i].StartOnIo? ==> i == 0 && c.created == 0)
    && (!c.started ==> c.created == 0 && c.queue == [])
    && c.created <= 1
  }

  datatype Event =
    | CallStart
    | DropOwner
    | RunTask(bindingRefs: nat)
    | OpenFactory
    | DestroyLoop(tasksFirst: bool)

  predicate Enabled(c: Connection, e: Event) {
    match e
    case CallStart => c.owned && !c.started
    case DropOwner => c.owned && (c.started ==> c.loopAlive)
    case RunTask(_) => c.loopAlive && c.queue != []
    case OpenFactory => c.loopAlive && c.bound
    case DestroyLoop(_) => c.loopAlive
  }

  function Posted(c: Connection, task: IoTask): Connection {
    if c.loopAlive then c.(queue := c.queue + [task], refs := c.refs + 1) else c
  }

  function Apply(c: Connection, e: Event): Connection
    requires Settled(c) && Enabled(c, e)
  {
    match e
    case CallStart => Posted(c.(started := true), StartOnIo)
    case DropOwner => DropRefs((if c.started then Posted(c, ShutDownOnIo) else c).(owned := false), 1)
    case RunTask(k) =>
      var popped := c.(queue := c.queue[1..]);
      DropRefs(if c.queue[0].StartOnIo? then Started(popped, k) else ShutDown(popped), 1)
    case OpenFactory => c.(factories := c.factories + 1)
    case DestroyLoop(tasksFirst) =>
      (if tasksFirst then Notified(QueueDropped(c)) else QueueDropped(Notified(c))).(loopAlive := false)
  }

  /** The state after `events`, or None when one of them is not enabled. */
  function Exec(c: Connection, events: seq<Event>): Option<Connection>
    requires Settled(c)
    decreases |events|
  {
    if events == [] then Some(c)
    else if Enabled(c, events[0]) then
      StepSettled(c, events[0]);
      Exec(Apply(c, events[0]), events[1..])
    else None
  }

  lemma StepSettled(c: Connection, e: Event)
    requires Settled(c) && Enabled(c, e)
    ensures Settled(Apply(c, e))
  {
    match e
    case RunTask(k) => TaskSettled(c, k);
    case DestroyLoop(tasksFirst) => DestroySettled(c, tasksFirst);
    case _ => PostSettled(c, e);
  }

  lemma PostSettled(c: Connection, e: Event)
    requires Settled(c) && Enabled(c, e) && !e.RunTask? && !e.DestroyLoop?
    ensures Settled(Apply(c, e))
  {
  }

  lemma TaskSettled(c: Connection, k: nat)
    requires Settled(c) && Enabled(c, RunTask(k))
    ensures Settled(Apply(c, RunTask(k)))
  {
    var c' := Apply(c, RunTask(k));
    assert c'.queue == c.queue[1..];
  }

  lemma DestroySettled(c: Connection, tasksFirst: bool)
    requires Settled(c) && Enabled(c, DestroyLoop(tasksFirst))
    ensures Settled(Apply(c, DestroyLoop(tasksFirst)))
  {
  }

  lemma {:induction false} ExecSettled(c: Connection, events: seq<Event>)
    requires Settled(c)
    ensures Exec(c, events).Some? ==> Settled(Exec(c, events).value)
    decreases |events|
  {
    if events != [] && Enabled(c, events[0]) {
      StepSettled(c, events[0]);
      ExecSettled(Apply(c, events[0]), events[1..]);
    }
  }

  /** Nothing of the shut-down connection is left on the IO thread. */
  predicate ShutDownState(c: Connection) {
    && !c.observed && !c.weakValid && !c.bound && c.factories == 0 && c.bindingRefs == 0
    && c.created == c.deleted <= 1
  }

  /** In every ordering of start, tasks, shut-down and loop destruction, once the loop has gone the
      connection is shut down, and its observer, if it ever had one, has been deleted once. When the
      owner has let go too, the context has been freed. */
  lemma LoopDestructionShutsDown(events: seq<Event>, c: Connection)
    requires Exec(Fresh, events) == Some(c) && !c.loopAlive
    ensures ShutDownState(c)
    ensures c.destroyed <==> !c.owned
  {
    ExecSettled(Fresh, events);
  }

  predicate ShutDownComing(c: Connection) {
    !c.owned && c.started && c.loopAlive ==>
      if c.queue != [] then c.queue[|c.queue| - 1].ShutDownOnIo? else ShutDownState(c)
  }

  lemma {:induction false} ExecShutDownComing(c: Connection, events: seq<Event>)
    requires Settled(c) && ShutDownComing(c)
    ensures Exec(c, events).Some? ==> ShutDownComing(Exec(c, events).value)
    decreases |events|
  {
    if events != [] && Enabled(c, events[0]) {
      var c' := Apply(c, events[0]);
      StepSettled(c, events[0]);
      if events[0].RunTask? && !c.owned && |c.queue| > 1 {
        assert c.queue[1..][|c.queue| - 2] == c.queue[|c.queue| - 1];
      }
      ExecShutDownComing(c', events[1..]);
    }
  }

  /** Without loop destruction: when the owner has let go and the posted tasks have run, the
      connection is in that same state, and the context has been freed. */
  lemma PostedShutDownSuffices(events: seq<Event>, c: Connection)
    requires Exec(Fresh, events) == Some(c) && !c.owned && c.queue == []
    ensures ShutDownState(c) && c.destroyed
  {
    ExecSettled(Fresh, events);
    ExecShutDownComing(Fresh, events);
  }
}
