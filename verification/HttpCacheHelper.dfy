/** Clearing the HTTP cache (net/http_cache_helper.cc): any number of overlapping requests, each
    going through the network thread, the cache's GetBackend and the backend's DoomEntriesBetween,
    either of which answers at once or later. */
module HttpCacheHelper {
  import opened Wrappers

  /** A request with the task runner of the thread that issued it, as they are bound into the tasks
      and callbacks on the way. */
  datatype Request = Request(id: nat, runner: nat)

  /** The callback of a request, posted to a task runner with a result. */
  datatype Reply = Reply(id: nat, runner: nat, result: int)

  /** A call into the cache returns a result, or ERR_IO_PENDING and calls back later. */
  datatype Outcome = Now(result: int) | Later

  datatype State = State(
    issued: multiset<Request>,
    network: seq<Request>,               // ClearHttpCacheOnIOThread tasks
    awaitingBackend: multiset<Request>,  // DoomHttpCache callbacks that GetBackend holds
    awaitingDoom: multiset<Request>,     // PostCallback callbacks that DoomEntriesBetween holds
    replies: seq<Reply>)

  const Init := State(multiset{}, [], multiset{}, multiset{}, [])

  /** `backend` says whether there is a backend to doom entries in, `doom` how that call goes. */
  datatype Step =
    | Clear(id: nat, thread: nat)
    | RunClear(get: Outcome, backend: bool, doom: Outcome)
    | BackendReady(request: Request, result: int, backend: bool, doom: Outcome)
    | DoomDone(request: Request, result: int)

  predicate Enabled(s: State, a: Step) {
    match a
    case Clear(_, _) => true
    case RunClear(_, _, _) => s.network != []
    case BackendReady(request, _, _, _) => request in s.awaitingBackend
    case DoomDone(request, _) => request in s.awaitingDoom
  }

  function Replied(s: State, id: nat, runner: nat, result: int): State {
    s.(replies := s.replies + [Reply(id, runner, result)])
  }

  function Doom(s: State, id: nat, runner: nat, error: int, backend: bool, doom: Outcome): State {
    if !backend then Replied(s, id, runner, error)
    else match doom
      case Now(rv) => Replied(s, id, runner, rv)
      case Later => s.(awaitingDoom := s.awaitingDoom + multiset{Request(id, runner)})
  }

  function Apply(s: State, a: Step): State
    requires Enabled(s, a)
  {
    match a
    case Clear(id, t) => s.(issued := s.issued + multiset{Request(id, t)}, network := s.network + [Request(id, t)])
    case RunClear(get, backend, doom) =>
      var popped, next := s.(network := s.network[1..]), s.network[0];
      (match get
       case Now(rv) => Doom(popped, next.id, next.runner, rv, backend, doom)
       case Later => popped.(awaitingBackend := s.awaitingBackend + multiset{next}))
    case BackendReady(request, result, backend, doom) =>
      var taken := s.(awaitingBackend := s.awaitingBackend - multiset{request});
      Doom(taken, request.id, request.runner, result, backend, doom)
    case DoomDone(request, result) =>
      var taken := s.(awaitingDoom := s.awaitingDoom - multiset{request});
      Replied(taken, request.id, request.runner, result)
  }

  /** The task posted to the network thread, and the callbacks it hands to the cache. */
  class CacheClearing {
    var network: seq<Request>
    var awaitingBackend: multiset<Request>
    var awaitingDoom: multiset<Request>
    var replies: seq<Reply>
    ghost var issued: multiset<Request>

    ghost function Abs(): State
      reads this
    {
      State(issued, network, awaitingBackend, awaitingDoom, replies)
    }

    constructor ()
      ensures Abs() == Init
    {
      issued, network, awaitingBackend, awaitingDoom, replies := multiset{}, [], multiset{}, multiset{}, [];
    }

    method PostCallback(taskRunner: nat, id: nat, error: int)
      modifies `replies
      ensures replies == old(replies) + [Reply(id, taskRunner, error)]
    {
      replies := replies + [Reply(id, taskRunner, error)];
    }

    method DoomHttpCache(clientTaskRunner: nat, id: nat, error: int, backend: bool, doom: Outcome)
      modifies this
      ensures Abs() == Doom(old(Abs()), id, clientTaskRunner, error, backend, doom)
    {
      if backend {
        match doom
        case Later => awaitingDoom := awaitingDoom + multiset{Request(id, clientTaskRunner)};
        case Now(rv) => PostCallback(clientTaskRunner, id, rv);
      } else {
        PostCallback(clientTaskRunner, id, error);
      }
    }

    /** Called on `thread`. */
    method ClearHttpCache(id: nat, thread: nat)
      modifies this
      ensures Abs() == Apply(old(Abs()), Clear(id, thread))
    {
      issued := issued + multiset{Request(id, thread)};
      network := network + [Request(id, thread)];
    }

    method ClearHttpCacheOnIOThread(get: Outcome, backend: bool, doom: Outcome)
      requires network != []
      modifies this
      ensures Abs() == Apply(old(Abs()), RunClear(get, backend, doom))
    {
      var next := network[0];
      network := network[1..];
      match get
      case Later => awaitingBackend := awaitingBackend + multiset{next};
      case Now(rv) => DoomHttpCache(next.runner, next.id, rv, backend, doom);
    }

    method OnBackendReady(request: Request, result: int, backend: bool, doom: Outcome)
      requires request in awaitingBackend
      modifies this
      ensures Abs() == Apply(old(Abs()), BackendReady(request, result, backend, doom))
    {
      awaitingBackend := awaitingBackend - multiset{request};
      DoomHttpCache(request.runner, request.id, result, backend, doom);
    }

    method OnDoomDone(request: Request, result: int)
      requires request in awaitingDoom
      modifies this
      ensures Abs() == Apply(old(Abs()), DoomDone(request, result))
    {
      awaitingDoom := awaitingDoom - multiset{request};
      PostCallback(request.runner, request.id, result);
    }
  }

  function Exec(s: State, steps: seq<Step>): Option<State>
    decreases |steps|
  {
    if steps == [] then Some(s)
    else if Enabled(s, steps[0]) then Exec(Apply(s, steps[0]), steps[1..])
    else None
  }

  /** What has been answered, by request and by the runner that the callback went to. */
  function Answered(replies: seq<Reply>): multiset<Request> {
    if replies == [] then multiset{}
    else
      var last := replies[|replies| - 1];
      Answered(replies[..|replies| - 1]) + multiset{Request(last.id, last.runner)}
  }

  /** In how many places a request waits. */
  function Pending(s: State, r: Request): nat {
    multiset(s.network)[r] + s.awaitingBackend[r] + s.awaitingDoom[r]
  }

  /** A request issued on a thread waits in one place or has been answered to that thread, and never
      both; and nothing is answered to any other thread. */
  predicate ConservedAt(s: State, r: Request) {
    Pending(s, r) + Answered(s.replies)[r] == s.issued[r]
  }

  lemma ReplyCounts(s: State, id: nat, runner: nat, result: int, r: Request)
    ensures Answered(Replied(s, id, runner, result).replies)[r] ==
            Answered(s.replies)[r] + if Request(id, runner) == r then 1 else 0
  {
    assert Replied(s, id, runner, result).replies[..|s.replies|] == s.replies;
  }

  /** DoomHttpCache puts its request, which is nowhere, into one place. */
  lemma DoomCounts(s: State, id: nat, runner: nat, error: int, backend: bool, doom: Outcome, r: Request)
    ensures var d := Doom(s, id, runner, error, backend, doom);
            Pending(d, r) + Answered(d.replies)[r] ==
            Pending(s, r) + Answered(s.replies)[r] + if Request(id, runner) == r then 1 else 0
  {
    ReplyCounts(s, id, runner, error, r);
    if doom.Now? { ReplyCounts(s, id, runner, doom.result, r); }
  }

  lemma PoppedCounts(s: State, r: Request)
    requires s.network != []
    ensures multiset(s.network)[r] == multiset(s.network[1..])[r] + if s.network[0] == r then 1 else 0
  {
    assert s.network == [s.network[0]] + s.network[1..];
  }

  lemma RunClearConserves(s: State, get: Outcome, backend: bool, doom: Outcome, r: Request)
    requires ConservedAt(s, r) && s.network != []
    ensures ConservedAt(Apply(s, RunClear(get, backend, doom)), r)
  {
    var popped, next := s.(network := s.network[1..]), s.network[0];
    PoppedCounts(s, r);
    if get.Now? { DoomCounts(popped, next.id, next.runner, get.result, backend, doom, r); }
  }

  lemma BackendReadyConserves(s: State, x: Request, result: int, backend: bool, doom: Outcome, r: Request)
    requires ConservedAt(s, r) && x in s.awaitingBackend
    ensures ConservedAt(Apply(s, BackendReady(x, result, backend, doom)), r)
  {
    DoomCounts(s.(awaitingBackend := s.awaitingBackend - multiset{x}), x.id, x.runner, result, backend, doom, r);
  }

  lemma DoomDoneConserves(s: State, x: Request, result: int, r: Request)
    requires ConservedAt(s, r) && x in s.awaitingDoom
    ensures ConservedAt(Apply(s, DoomDone(x, result)), r)
  {
    ReplyCounts(s.(awaitingDoom := s.awaitingDoom - multiset{x}), x.id, x.runner, result, r);
  }

  lemma StepConserves(s: State, a: Step, r: Request)
    requires ConservedAt(s, r) && Enabled(s, a)
    ensures ConservedAt(Apply(s, a), r)
  {
    match a
    case Clear(_, _) =>
    case RunClear(get, backend, doom) => RunClearConserves(s, get, backend, doom, r);
    case BackendReady(x, result, backend, doom) => BackendReadyConserves(s, x, result, backend, doom, r);
    case DoomDone(x, result) => DoomDoneConserves(s, x, result, r);
  }

  lemma {:induction false} ExecConserves(s: State, steps: seq<Step>, r: Request)
    requires ConservedAt(s, r)
    ensures Exec(s, steps).Some? ==> ConservedAt(Exec(s, steps).value, r)
    decreases |steps|
  {
    if steps != [] && Enabled(s, steps[0]) {
      StepConserves(s, steps[0], r);
      ExecConserves(Apply(s, steps[0]), steps[1..], r);
    }
  }

  lemma {:induction false} ReplyIsCounted(replies: seq<Reply>, i: nat)
    requires i < |replies|
    ensures Answered(replies)[Request(replies[i].id, replies[i].runner)] > 0
  {
    if i < |replies| - 1 {
      ReplyIsCounted(replies[..|replies| - 1], i);
    }
  }

  /** In any interleaving and any mix of outcomes, a request issued once has its callback posted at
      most once, and exactly once when none of its steps is pending. */
  lemma AnsweredExactlyOnce(steps: seq<Step>, s: State, r: Request)
    requires Exec(Init, steps) == Some(s) && s.issued[r] == 1
    ensures Answered(s.replies)[r] <= 1
    ensures Answered(s.replies)[r] == 1 <==> Pending(s, r) == 0
  {
    ExecConserves(Init, steps, r);
  }

  /** Every callback goes to a runner that issued a request for it. */
  lemma AnsweredToIssuer(steps: seq<Step>, s: State, i: nat)
    requires Exec(Init, steps) == Some(s) && i < |s.replies|
    ensures Request(s.replies[i].id, s.replies[i].runner) in s.issued
  {
    ExecConserves(Init, steps, Request(s.replies[i].id, s.replies[i].runner));
    ReplyIsCounted(s.replies, i);
  }

  // ---------------------------------------------------------------------------------------
  // What is reported
  // ---------------------------------------------------------------------------------------

  /** The requests made, in order. */
  function Cleared(steps: seq<Step>): seq<Request> {
    if steps == [] then []
    else
      var a := steps[|steps| - 1];
      Cleared(steps[..|steps| - 1]) + if a.Clear? then [Request(a.id, a.thread)] else []
  }

  function Started(steps: seq<Step>): nat {
    if steps == [] then 0 else Started(steps[..|steps| - 1]) + if steps[|steps| - 1].RunClear? then 1 else 0
  }

  /** What a request is told once GetBackend has answered `error`: that, if there is no backend; else
      what dooming answers, if it does so at once. */
  function Report(r: Request, error: int, backend: bool, doom: Outcome): seq<Reply> {
    if !backend then [Reply(r.id, r.runner, error)]
    else if doom.Now? then [Reply(r.id, r.runner, doom.result)]
    else []
  }

  function Reports(a: Step, next: Option<Request>): seq<Reply> {
    match a
    case Clear(_, _) => []
    case RunClear(get, backend, doom) =>
      if get.Now? && next.Some? then Report(next.value, get.result, backend, doom) else []
    case BackendReady(r, result, backend, doom) => Report(r, result, backend, doom)
    case DoomDone(r, result) => [Reply(r.id, r.runner, result)]
  }

  /** Requests are started in the order in which they were made. */
  function NextStarted(steps: seq<Step>): Option<Request> {
    if Started(steps) < |Cleared(steps)| then Some(Cleared(steps)[Started(steps)]) else None
  }

  function AllReports(steps: seq<Step>): seq<Reply> {
    if steps == [] then []
    else
      var before := steps[..|steps| - 1];
      AllReports(before) + Reports(steps[|steps| - 1], NextStarted(before))
  }

  datatype Story = Story(cleared: seq<Request>, started: nat, replies: seq<Reply>)

  function StoryOf(steps: seq<Step>): Story {
    Story(Cleared(steps), Started(steps), AllReports(steps))
  }

  function Continued(t: Story, a: Step): Story {
    Story(t.cleared + (if a.Clear? then [Request(a.id, a.thread)] else []),
          t.started + (if a.RunClear? then 1 else 0),
          t.replies + Reports(a, if t.started < |t.cleared| then Some(t.cleared[t.started]) else None))
  }

  lemma OneMore(steps: seq<Step>, a: Step)
    ensures StoryOf(steps + [a]) == Continued(StoryOf(steps), a)
  {
    assert (steps + [a])[..|steps|] == steps;
  }

  function ContinuedBy(t: Story, steps: seq<Step>): Story
    decreases |steps|
  {
    if steps == [] then t else ContinuedBy(Continued(t, steps[0]), steps[1..])
  }

  lemma {:induction false} StoryGoesOn(done: seq<Step>, steps: seq<Step>)
    ensures StoryOf(done + steps) == ContinuedBy(StoryOf(done), steps)
    decreases |steps|
  {
    if steps == [] {
      assert done + steps == done;
    } else {
      OneMore(done, steps[0]);
      StoryGoesOn(done + [steps[0]], steps[1..]);
      assert done + [steps[0]] + steps[1..] == done + steps;
    }
  }

  predicate Told(t: Story, s: State) {
    && t.started <= |t.cleared| && s.network == t.cleared[t.started..]
    && s.issued == multiset(t.cleared) && s.replies == t.replies
  }

  lemma StepReplies(s: State, a: Step)
    requires Enabled(s, a)
    ensures Apply(s, a).replies == s.replies + Reports(a, if s.network == [] then None else Some(s.network[0]))
  {
  }

  lemma StepQueue(s: State, a: Step)
    requires Enabled(s, a)
    ensures Apply(s, a).network ==
            if a.Clear? then s.network + [Request(a.id, a.thread)]
            else if a.RunClear? then s.network[1..]
            else s.network
    ensures Apply(s, a).issued == s.issued + if a.Clear? then multiset{Request(a.id, a.thread)} else multiset{}
  {
  }

  /** What is queued stays what has been made and not started. */
  lemma QueueTold(cleared: seq<Request>, started: nat, more: seq<Request>, begun: nat)
    requires started + begun <= |cleared|
    ensures (cleared + more)[started + begun..] == cleared[started..][begun..] + more
    ensures multiset(cleared + more) == multiset(cleared) + multiset(more)
  {
  }

  lemma StepTold(t: Story, s: State, a: Step)
    requires Told(t, s) && Enabled(s, a)
    ensures Told(Continued(t, a), Apply(s, a))
  {
    var begun, more := if a.RunClear? then 1 else 0, if a.Clear? then [Request(a.id, a.thread)] else [];
    var t', s' := Continued(t, a), Apply(s, a);
    assert |s.network| == |t.cleared| - t.started && (a.RunClear? ==> |s.network| > 0);
    assert t'.cleared == t.cleared + more && t'.started == t.started + begun;
    assert s'.network == s.network[begun..] + more && s'.issued == s.issued + multiset(more) by { StepQueue(s, a); }
    assert s'.replies == t'.replies by { StepReplies(s, a); }
    QueueTold(t.cleared, t.started, more, begun);
  }

  lemma {:induction false} RunTold(t: Story, s: State, steps: seq<Step>)
    requires Told(t, s) && Exec(s, steps).Some?
    ensures Told(ContinuedBy(t, steps), Exec(s, steps).value)
    decreases |steps|
  {
    if steps != [] {
      StepTold(t, s, steps[0]);
      RunTold(Continued(t, steps[0]), Apply(s, steps[0]), steps[1..]);
    }
  }

  /** Over every run: the callbacks posted, with their results, are those that the outcomes tell, in
      order; an error of GetBackend is reported as it is, and so is what dooming answers. */
  lemma RepliesAreReports(steps: seq<Step>, s: State)
    requires Exec(Init, steps) == Some(s)
    ensures s.replies == AllReports(steps)
    ensures s.issued == multiset(Cleared(steps))
    ensures Started(steps) <= |Cleared(steps)| && s.network == Cleared(steps)[Started(steps)..]
  {
    RunTold(StoryOf([]), Init, steps);
    StoryGoesOn([], steps);
    assert [] + steps == steps;
  }

  /** A request that waits can go on: it is in line on the network thread, which is not held up, or the
      cache may call it back. */
  lemma PendingGoesOn(s: State, r: Request, get: Outcome, result: int, backend: bool, doom: Outcome)
    requires Pending(s, r) > 0
    ensures || (r in s.network && Enabled(s, RunClear(get, backend, doom)))
            || Enabled(s, BackendReady(r, result, backend, doom))
            || Enabled(s, DoomDone(r, result))
  {
  }
}
