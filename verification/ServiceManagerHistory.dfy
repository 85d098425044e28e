/** Where a connection stands, told from what has happened to it: the owner's calls, the tasks the
    message loop has run, and whether the loop is still there. */
module ServiceManagerHistory {
  import opened Wrappers
  import opened ServiceManagerConnection

  predicate WasStarted(events: seq<Event>) {
    CallStart in events
  }

  predicate WasDropped(events: seq<Event>) {
    DropOwner in events
  }

  predicate LoopIsGone(events: seq<Event>) {
    exists e :: e in events && e.DestroyLoop?
  }

  /** The tasks posted to the loop: one by Start, and one by dropping an owner that had started. */
  function Tasks(events: seq<Event>): seq<IoTask> {
    if events == [] then []
    else
      var before, e := events[..|events| - 1], events[|events| - 1];
      Tasks(before) +
      if LoopIsGone(before) then []
      else if e.CallStart? then [StartOnIo]
      else if e.DropOwner? && WasStarted(before) then [ShutDownOnIo]
      else []
  }

  function TasksRun(events: seq<Event>): nat {
    if events == [] then 0 else TasksRun(events[..|events| - 1]) + if events[|events| - 1].RunTask? then 1 else 0
  }

  /** The references that the binding made by the first task came with. */
  function FirstRefs(events: seq<Event>): nat {
    if events == [] then 0
    else
      var before, e := events[..|events| - 1], events[|events| - 1];
      if e.RunTask? && TasksRun(before) == 0 then e.bindingRefs else FirstRefs(before)
  }

  function FactoriesOpened(events: seq<Event>): nat {
    if events == [] then 0
    else FactoriesOpened(events[..|events| - 1]) + if events[|events| - 1].OpenFactory? then 1 else 0
  }

  datatype Story = Story(
    started: bool, dropped: bool, gone: bool, tasks: seq<IoTask>, run: nat, firstRefs: nat, factories: nat)

  function StoryOf(events: seq<Event>): Story {
    Story(WasStarted(events), WasDropped(events), LoopIsGone(events), Tasks(events), TasksRun(events),
          FirstRefs(events), FactoriesOpened(events))
  }

  function Continued(s: Story, e: Event): Story {
    var posted :=
      if s.gone then []
      else if e.CallStart? then [StartOnIo]
      else if e.DropOwner? && s.started then [ShutDownOnIo]
      else [];
    Story(s.started || e.CallStart?, s.dropped || e.DropOwner?, s.gone || e.DestroyLoop?, s.tasks + posted,
          s.run + (if e.RunTask? then 1 else 0), if e.RunTask? && s.run == 0 then e.bindingRefs else s.firstRefs,
          s.factories + (if e.OpenFactory? then 1 else 0))
  }

  lemma OneMore(events: seq<Event>, e: Event)
    ensures StoryOf(events + [e]) == Continued(StoryOf(events), e)
  {
    assert (events + [e])[..|events|] == events;
    assert forall x :: x in events + [e] <==> x in events || x == e;
  }

  /** The connection is where its story says. */
  predicate Told(s: Story, c: Connection) {
    && c.owned == !s.dropped && c.started == s.started && c.loopAlive == !s.gone
    && c.created == (if s.run > 0 then 1 else 0)
    && (s.run == 0 ==> s.factories == 0 && !c.bound)
    && (c.loopAlive ==>
          && s.tasks == (if !s.started then [] else if s.dropped then [StartOnIo, ShutDownOnIo] else [StartOnIo])
          && s.run <= |s.tasks| && c.queue == s.tasks[s.run..] && (c.bound <==> s.run == 1))
    && (c.bound ==> c.bindingRefs == s.firstRefs && c.factories == s.factories)
  }

  lemma OwnerTold(s: Story, c: Connection, e: Event)
    requires Settled(c) && Enabled(c, e) && Told(s, c) && (e.CallStart? || e.DropOwner? || e.OpenFactory?)
    ensures Told(Continued(s, e), Apply(c, e))
  {
  }

  lemma TaskTold(s: Story, c: Connection, k: nat)
    requires Settled(c) && Enabled(c, RunTask(k)) && Told(s, c)
    ensures Told(Continued(s, RunTask(k)), Apply(c, RunTask(k)))
  {
    assert c.queue[1..] == s.tasks[s.run + 1..];
  }

  lemma LoopTold(s: Story, c: Connection, tasksFirst: bool)
    requires Settled(c) && Enabled(c, DestroyLoop(tasksFirst)) && Told(s, c)
    ensures Told(Continued(s, DestroyLoop(tasksFirst)), Apply(c, DestroyLoop(tasksFirst)))
  {
  }

  lemma StepTold(s: Story, c: Connection, e: Event)
    requires Settled(c) && Enabled(c, e) && Told(s, c)
    ensures Told(Continued(s, e), Apply(c, e))
  {
    match e
    case RunTask(k) => TaskTold(s, c, k);
    case DestroyLoop(tasksFirst) => LoopTold(s, c, tasksFirst);
    case _ => OwnerTold(s, c, e);
  }

  function ContinuedBy(s: Story, events: seq<Event>): Story
    decreases |events|
  {
    if events == [] then s else ContinuedBy(Continued(s, events[0]), events[1..])
  }

  lemma {:induction false} StoryGoesOn(done: seq<Event>, events: seq<Event>)
    ensures StoryOf(done + events) == ContinuedBy(StoryOf(done), events)
    decreases |events|
  {
    if events == [] {
      assert done + events == done;
    } else {
      OneMore(done, events[0]);
      StoryGoesOn(done + [events[0]], events[1..]);
      assert done + [events[0]] + events[1..] == done + events;
    }
  }

  lemma {:induction false} RunTold(s: Story, c: Connection, events: seq<Event>)
    requires Settled(c) && Told(s, c) && Exec(c, events).Some?
    ensures Told(ContinuedBy(s, events), Exec(c, events).value)
    decreases |events|
  {
    if events != [] {
      StepSettled(c, events[0]);
      StepTold(s, c, events[0]);
      RunTold(Continued(s, events[0]), Apply(c, events[0]), events[1..]);
    }
  }

  lemma FromTheStart(events: seq<Event>, c: Connection)
    requires Exec(Fresh, events) == Some(c)
    ensures Told(StoryOf(events), c)
  {
    RunTold(StoryOf([]), Fresh, events);
    StoryGoesOn([], events);
    assert [] + events == events;
  }

  /** While the loop is there and the owner has not let go, a connection that has been started waits
      for its start task, or that has run and the connection is bound and observed, with the factories
      opened and the references its binding came with. One that has not been started has nothing. */
  lemma StartedIsBound(events: seq<Event>, c: Connection)
    requires Exec(Fresh, events) == Some(c) && CallStart in events && DropOwner !in events
    requires forall e | e in events :: !e.DestroyLoop?
    ensures c.started && c.owned && c.loopAlive
    ensures if TasksRun(events) == 0 then c.queue == [StartOnIo] && !c.bound && c.created == 0
            else
              && c.queue == [] && c.bound && c.weakValid && c.observed && c.created == 1 && c.deleted == 0
              && c.factories == FactoriesOpened(events) && c.bindingRefs == FirstRefs(events)
  {
    FromTheStart(events, c);
    ExecSettled(Fresh, events);
  }

  /** The whole story: the owner and the loop are there until they go; the loop has run its tasks in
      the order in which they were posted; an observer is created when the first one runs, and the
      connection is bound from then until the second one runs. */
  lemma EventsTell(events: seq<Event>, c: Connection)
    requires Exec(Fresh, events) == Some(c)
    ensures c.owned <==> DropOwner !in events
    ensures c.started <==> CallStart in events
    ensures c.loopAlive <==> forall e | e in events :: !e.DestroyLoop?
    ensures c.created == if TasksRun(events) > 0 then 1 else 0
    ensures c.loopAlive ==>
              && TasksRun(events) <= |Tasks(events)| && c.queue == Tasks(events)[TasksRun(events)..]
              && (c.bound <==> TasksRun(events) == 1) && (c.bound ==> c.factories == FactoriesOpened(events))
  {
    FromTheStart(events, c);
  }

  /** Nothing is refused: the owner may start once and let go once, after a start while the loop is
      there; a loop that is there may run a task it has, hand over a factory request to a bound
      connection, and go. */
  lemma EventsAreNotRefused(events: seq<Event>, c: Connection, k: nat, tasksFirst: bool)
    requires Exec(Fresh, events) == Some(c)
    ensures CallStart !in events && DropOwner !in events ==> Enabled(c, CallStart)
    ensures DropOwner !in events && (CallStart in events ==> !LoopIsGone(events)) ==> Enabled(c, DropOwner)
    ensures !LoopIsGone(events) ==> Enabled(c, DestroyLoop(tasksFirst))
    ensures !LoopIsGone(events) && TasksRun(events) < |Tasks(events)| ==> Enabled(c, RunTask(k))
    ensures !LoopIsGone(events) && TasksRun(events) == 1 ==> Enabled(c, OpenFactory)
  {
    FromTheStart(events, c);
  }
}
