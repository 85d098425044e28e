/** Data sources with reference counts, the list of sources to delete and the wake-up of the UI
    thread, over any interleaving of any number of threads. Dropping the last reference and pushing
    onto the list is one step; pushing and posting the wake-up are two, and so are SendResponse's
    question whether the source is listed and the reference its posted task takes. A source's
    destructor is whatever the UI thread does after the deletion: it may release further sources,
    send responses, and call DeleteDataSources again. */
module UrlDataInterleaving {
  import opened Wrappers
  import opened UrlDataManager

  type Tid = nat
  const UI: Tid := 0
  const IO: Tid := 1

  /** A call of DeleteDataSources past its swap: the sources it took, how many it has deleted, and
      the thread it runs on. */
  datatype Call = Call(sources: seq<Source>, next: nat, thread: Tid)

  datatype World = World(
    created: set<Source>,
    /** The sources not yet deleted, with the threads that hold references to them. */
    holders: map<Source, multiset<Tid>>,
    list: seq<Source>,
    /** Threads between the push and the post, with `schedule_delete` true. */
    scheduling: set<Tid>,
    /** DeleteDataSources tasks, by the thread they were posted to. */
    wakeups: multiset<Tid>,
    /** The thread that has entered DeleteDataSources and not yet swapped. */
    entering: Option<Tid>,
    /** Unfinished calls past the swap, innermost last. */
    calls: seq<Call>,
    /** The source of a SendResponse that has passed its check and not yet taken its reference. */
    sending: Option<Source>,
    deletions: multiset<Source>,
    deleters: set<Tid>)

  const Init := World({}, map[], [], {}, multiset{}, None, [], None, multiset{}, {})

  datatype Step =
    | Create(source: Source)
    | Retain(t: Tid, forThread: Tid, source: Source)
    | Release(t: Tid, source: Source)
    | PostWakeup(t: Tid)
    | RunTask(t: Tid)
    | CallDirectly(t: Tid)
    | Swap
    | DeleteNext
    | Return
    | Check(source: Source)
    | TakeReference

  predicate OnUi(a: Step) {
    match a
    case Retain(t, _, _) => t == UI
    case Release(t, _) => t == UI
    case PostWakeup(t) => t == UI
    case RunTask(t) => t == UI
    case CallDirectly(t) => t == UI
    case _ => true
  }

  predicate Holds(w: World, t: Tid, d: Source) {
    d in w.holders && t in w.holders[d]
  }

  /** `d` has been swapped out by a call that has not come to it yet. */
  predicate SwappedOut(w: World, d: Source) {
    SwappedCount(w.calls)[d] > 0
  }

  function Left(c: Call): multiset<Source> {
    if c.next <= |c.sources| then multiset(c.sources[c.next..]) else multiset{}
  }

  function SwappedCount(calls: seq<Call>): multiset<Source> {
    if calls == [] then multiset{} else SwappedCount(calls[..|calls| - 1]) + Left(calls[|calls| - 1])
  }

  /** The innermost call has a source left to delete. */
  predicate HasNext(calls: seq<Call>) {
    calls != [] && calls[|calls| - 1].next < |calls[|calls| - 1].sources|
  }

  predicate IsDone(calls: seq<Call>) {
    calls != [] && calls[|calls| - 1].next == |calls[|calls| - 1].sources|
  }

  /** The UI thread does nothing else between entering DeleteDataSources and the swap, nor between
      the check and the reference. DeleteDataSources is called directly on the UI thread only. */
  predicate Enabled(w: World, a: Step) {
    && (OnUi(a) ==> (w.entering.Some? ==> a.Swap?) && (w.sending.Some? ==> a.TakeReference?))
    && match a
       case Create(d) => d !in w.created
       case Retain(t, _, d) => Holds(w, t, d) && t !in w.scheduling
       case Release(t, d) => Holds(w, t, d) && t !in w.scheduling
       case PostWakeup(t) => t in w.scheduling
       case RunTask(t) => t in w.wakeups
       case CallDirectly(t) => t == UI
       case Swap => w.entering.Some?
       case DeleteNext => HasNext(w.calls)
       case Return => IsDone(w.calls)
       case Check(d) => d in w.holders
       case TakeReference => w.sending.Some? && w.sending.value in w.holders
  }

  /** The response is sent by the UI thread while it holds a reference of its own, unless the check
      stops it anyway. */
  predicate Careful(w: World, a: Step) {
    a.Check? && a.source !in w.list ==> Holds(w, UI, a.source)
  }

  function Delete(w: World, t: Tid, d: Source): World {
    w.(holders := w.holders - {d}, deletions := w.deletions + multiset{d}, deleters := w.deleters + {t})
  }

  function Advanced(calls: seq<Call>): seq<Call>
    requires HasNext(calls)
  {
    var c := calls[|calls| - 1];
    calls[..|calls| - 1] + [c.(next := c.next + 1)]
  }

  function NextSource(w: World): Source
    requires HasNext(w.calls)
  {
    w.calls[|w.calls| - 1].sources[w.calls[|w.calls| - 1].next]
  }

  function DeletedNext(w: World): World
    requires HasNext(w.calls)
  {
    Delete(w, w.calls[|w.calls| - 1].thread, NextSource(w)).(calls := Advanced(w.calls))
  }

  function Apply(w: World, a: Step): World
    requires Enabled(w, a)
  {
    match a
    case Create(d) => w.(created := w.created + {d}, holders := w.holders[d := multiset{UI}])
    case Retain(_, u, d) => w.(holders := w.holders[d := w.holders[d] + multiset{u}])
    case Release(t, d) =>
      if |w.holders[d]| > 1 then w.(holders := w.holders[d := w.holders[d] - multiset{t}])
      else if t == UI then Delete(w, t, d)
      else w.(holders := w.holders[d := multiset{}], list := w.list + [d],
              scheduling := if w.list == [] then w.scheduling + {t} else w.scheduling)
    case PostWakeup(t) => w.(scheduling := w.scheduling - {t}, wakeups := w.wakeups + multiset{UI})
    case RunTask(t) => w.(wakeups := w.wakeups - multiset{t}, entering := Some(t))
    case CallDirectly(t) => w.(entering := Some(t))
    case Swap => w.(entering := None, list := [], calls := w.calls + [Call(w.list, 0, w.entering.value)])
    case DeleteNext => DeletedNext(w)
    case Return => w.(calls := w.calls[..|w.calls| - 1])
    case Check(d) => if d in w.list then w else w.(sending := Some(d))
    case TakeReference =>
      var d := w.sending.value;
      w.(sending := None, holders := w.holders[d := w.holders[d] + multiset{IO}])
  }

  /** The state after careful steps, or None when one of them is not careful, or not enabled. */
  function Exec(w: World, steps: seq<Step>): Option<World>
    decreases |steps|
  {
    if steps == [] then Some(w)
    else if Enabled(w, steps[0]) && Careful(w, steps[0]) then Exec(Apply(w, steps[0]), steps[1..])
    else None
  }

  /** The same, careful or not. */
  function ExecAny(w: World, steps: seq<Step>): Option<World>
    decreases |steps|
  {
    if steps == [] then Some(w)
    else if Enabled(w, steps[0]) then ExecAny(Apply(w, steps[0]), steps[1..])
    else None
  }

  ghost predicate Reaches(w: World, w': World) {
    exists steps: seq<Step> :: Exec(w, steps) == Some(w')
  }

  ghost predicate Reachable(w: World) {
    Reaches(Init, w)
  }

  // ---------------------------------------------------------------------------------------
  // Invariants
  // ---------------------------------------------------------------------------------------

  predicate Live(w: World, d: Source) {
    d in w.holders && w.holders[d] != multiset{}
  }

  /** In how many of the four places `d` is: live, listed, swapped out, deleted. */
  function Places(w: World, d: Source): nat {
    (if Live(w, d) then 1 else 0) + multiset(w.list)[d] + SwappedCount(w.calls)[d] + w.deletions[d]
  }

  predicate ConservedAt(w: World, d: Source) {
    && Places(w, d) == (if d in w.created then 1 else 0)
    && (d in w.holders <==> d in w.created && w.deletions[d] == 0)
  }

  ghost predicate Conserved(w: World) {
    forall d :: ConservedAt(w, d)
  }

  /** Wake-ups are posted to the UI thread, and run and delete there. */
  predicate OnlyUi(w: World) {
    && UI !in w.scheduling && (forall t | t in w.wakeups :: t == UI)
    && (w.entering.Some? ==> w.entering.value == UI)
    && CallsOnUi(w.calls)
    && w.deleters <= {UI}
  }

  /** If anything is listed, somebody is on the way to delete it. */
  predicate WakeupComing(w: World) {
    w.list != [] ==> UI in w.wakeups || w.scheduling != {} || w.entering.Some?
  }

  predicate CallOk(w: World, c: Call) {
    && c.next <= |c.sources|
    && forall i | 0 <= i < c.next :: w.deletions[c.sources[i]] > 0
  }

  predicate CallsOk(w: World) {
    forall k | 0 <= k < |w.calls| :: CallOk(w, w.calls[k])
  }

  ghost predicate Inv(w: World) {
    Conserved(w) && WakeupComing(w) && CallsOk(w) && OnlyUi(w)
  }

  /** The UI thread still holds its own reference when it takes another for a response. */
  predicate SendingHeld(w: World) {
    w.sending.Some? ==> Holds(w, UI, w.sending.value)
  }

  lemma SwappedPush(calls: seq<Call>, c: Call)
    ensures SwappedCount(calls + [c]) == SwappedCount(calls) + Left(c)
  {
    assert (calls + [c])[..|calls|] == calls;
  }

  /** Deleting one more source of a call leaves one less. */
  lemma LeftOneLess(c: Call)
    requires c.next < |c.sources|
    ensures Left(c) == Left(c.(next := c.next + 1)) + multiset{c.sources[c.next]}
  {
    assert c.sources[c.next..] == [c.sources[c.next]] + c.sources[c.next + 1..];
  }

  lemma SwappedOneLess(calls: seq<Call>)
    requires HasNext(calls)
    ensures var c := calls[|calls| - 1];
            SwappedCount(calls) == SwappedCount(Advanced(calls)) + multiset{c.sources[c.next]}
  {
    var rest, c := calls[..|calls| - 1], calls[|calls| - 1];
    assert calls == rest + [c];
    LeftOneLess(c);
    SwappedPush(rest, c);
    SwappedPush(rest, c.(next := c.next + 1));
  }

  /** The source DeleteNext deletes is there, and nobody holds a reference to it. */
  lemma NextIsUnreferenced(w: World)
    requires HasNext(w.calls) && ConservedAt(w, NextSource(w))
    ensures var d := NextSource(w);
            d in w.holders && w.holders[d] == multiset{} && d !in w.list && w.deletions[d] == 0
  {
    SwappedOneLess(w.calls);
    assert SwappedCount(w.calls)[NextSource(w)] >= 1;
    assert multiset(w.list)[NextSource(w)] == 0;
  }

  lemma LastHolder(m: multiset<Tid>, t: Tid)
    requires t in m
    ensures |m| > 1 <==> m - multiset{t} != multiset{}
  {
    assert |m - multiset{t}| == |m| - 1;
  }

  /** What decides how many places `d` is in. */
  lemma PlacesFrom(w: World, w': World, d: Source)
    requires ConservedAt(w, d) && (d in w'.created <==> d in w.created)
    requires (if Live(w, d) then 1 else 0) + multiset(w.list)[d] + SwappedCount(w.calls)[d] + w.deletions[d] ==
             (if Live(w', d) then 1 else 0) + multiset(w'.list)[d] + SwappedCount(w'.calls)[d] + w'.deletions[d]
    requires d in w'.holders <==> d in w.holders && w'.deletions[d] == w.deletions[d]
    requires w'.deletions[d] == w.deletions[d] || (w.deletions[d] == 0 && w'.deletions[d] == 1)
    ensures ConservedAt(w', d)
  {
  }

  lemma ReleaseLastElsewhere(w: World, t: Tid, x: Source, d: Source)
    requires ConservedAt(w, d) && ConservedAt(w, x) && Enabled(w, Release(t, x)) && |w.holders[x]| <= 1 && t != UI
    ensures ConservedAt(Apply(w, Release(t, x)), d)
  {
    assert ConservedAt(w, d) && ConservedAt(w, x);
    var w' := Apply(w, Release(t, x));
    assert w'.calls == w.calls && w'.deletions == w.deletions && w'.list == w.list + [x];
    assert multiset(w'.list) == multiset(w.list) + multiset{x};
    PlacesFrom(w, w', d);
  }

  lemma ReleaseLastOnUi(w: World, x: Source, d: Source)
    requires ConservedAt(w, d) && ConservedAt(w, x) && Enabled(w, Release(UI, x)) && |w.holders[x]| <= 1
    ensures ConservedAt(Apply(w, Release(UI, x)), d)
  {
    assert ConservedAt(w, d) && ConservedAt(w, x);
    var w' := Apply(w, Release(UI, x));
    assert w'.calls == w.calls && w'.list == w.list && w'.deletions == w.deletions + multiset{x};
    PlacesFrom(w, w', d);
  }

  lemma ReleasePlaces(w: World, t: Tid, x: Source, d: Source)
    requires ConservedAt(w, d) && ConservedAt(w, x) && Enabled(w, Release(t, x))
    ensures ConservedAt(Apply(w, Release(t, x)), d)
  {
    if |w.holders[x]| > 1 {
      LastHolder(w.holders[x], t);
      PlacesFrom(w, Apply(w, Release(t, x)), d);
    } else if t == UI {
      ReleaseLastOnUi(w, x, d);
    } else {
      ReleaseLastElsewhere(w, t, x, d);
    }
  }

  lemma DeleteNextPlaces(w: World, d: Source)
    requires HasNext(w.calls) && ConservedAt(w, NextSource(w)) && ConservedAt(w, d)
    ensures ConservedAt(DeletedNext(w), d)
  {
    NextIsUnreferenced(w);
    SwappedOneLess(w.calls);
    PlacesFrom(w, DeletedNext(w), d);
  }

  /** A swap moves the list to a new call. */
  lemma SwapPlaces(w: World, d: Source)
    requires ConservedAt(w, d) && Enabled(w, Swap)
    ensures ConservedAt(Apply(w, Swap), d)
  {
    SwappedPush(w.calls, Call(w.list, 0, w.entering.value));
    assert w.list[0..] == w.list;
    PlacesFrom(w, Apply(w, Swap), d);
  }

  /** A call that returns has nothing left. */
  lemma ReturnPlaces(w: World, d: Source)
    requires ConservedAt(w, d) && Enabled(w, Return)
    ensures ConservedAt(Apply(w, Return), d)
  {
    var rest, c := w.calls[..|w.calls| - 1], w.calls[|w.calls| - 1];
    assert w.calls == rest + [c];
    SwappedPush(rest, c);
    assert c.sources[c.next..] == [];
    PlacesFrom(w, Apply(w, Return), d);
  }

  lemma RetainPlaces(w: World, t: Tid, u: Tid, x: Source, d: Source)
    requires ConservedAt(w, d) && Enabled(w, Retain(t, u, x))
    ensures ConservedAt(Apply(w, Retain(t, u, x)), d)
  {
    assert Live(w, x);
    PlacesFrom(w, Apply(w, Retain(t, u, x)), d);
  }

  lemma TakeReferencePlaces(w: World, d: Source)
    requires ConservedAt(w, d) && Enabled(w, TakeReference) && SendingHeld(w)
    ensures ConservedAt(Apply(w, TakeReference), d)
  {
    assert Live(w, w.sending.value);
    PlacesFrom(w, Apply(w, TakeReference), d);
  }

  /** The steps that leave references, list, calls and deletions alone, and creation. */
  lemma OtherPlaces(w: World, a: Step, d: Source)
    requires Enabled(w, a) && ConservedAt(w, d)
    requires a.Create? || a.PostWakeup? || a.RunTask? || a.CallDirectly? || a.Check?
    ensures ConservedAt(Apply(w, a), d)
  {
  }

  lemma StepConservedAt(w: World, a: Step, d: Source)
    requires Enabled(w, a) && ConservedAt(w, d)
    requires a.Release? ==> ConservedAt(w, a.source)
    requires a.TakeReference? ==> SendingHeld(w)
    requires a.DeleteNext? ==> ConservedAt(w, NextSource(w))
    ensures ConservedAt(Apply(w, a), d)
  {
    match a
    case Swap => SwapPlaces(w, d);
    case Return => ReturnPlaces(w, d);
    case Retain(t, u, x) => RetainPlaces(w, t, u, x, d);
    case TakeReference => TakeReferencePlaces(w, d);
    case Release(t, x) => ReleasePlaces(w, t, x, d);
    case DeleteNext => DeleteNextPlaces(w, d);
    case _ => OtherPlaces(w, a, d);
  }

  lemma DeletionsStay(w: World, a: Step, c: Call)
    requires Enabled(w, a) && CallOk(w, c)
    ensures CallOk(Apply(w, a), c)
  {
  }

  lemma DeleteNextCallOk(w: World)
    requires HasNext(w.calls) && CallOk(w, w.calls[|w.calls| - 1])
    ensures CallOk(DeletedNext(w), Advanced(w.calls)[|w.calls| - 1])
  {
  }

  lemma StepCalls(w: World, a: Step)
    requires CallsOk(w) && Enabled(w, a)
    ensures CallsOk(Apply(w, a))
  {
    var w' := Apply(w, a);
    forall k | 0 <= k < |w'.calls| ensures CallOk(w', w'.calls[k]) {
      if a.DeleteNext? && k == |w.calls| - 1 {
        assert CallOk(w, w.calls[k]);
        DeleteNextCallOk(w);
      } else if k < |w.calls| {
        assert CallOk(w, w.calls[k]);
        DeletionsStay(w, a, w.calls[k]);
      }
    }
  }

  predicate CallsOnUi(calls: seq<Call>) {
    forall k | 0 <= k < |calls| :: calls[k].thread == UI
  }

  lemma StepCallsOnUi(w: World, a: Step)
    requires OnlyUi(w) && Enabled(w, a)
    ensures CallsOnUi(Apply(w, a).calls)
  {
  }

  lemma StepOnlyUi(w: World, a: Step)
    requires OnlyUi(w) && Enabled(w, a)
    ensures OnlyUi(Apply(w, a))
  {
    StepCallsOnUi(w, a);
    assert a.DeleteNext? ==> w.calls[|w.calls| - 1].thread == UI;
  }

  lemma StepWakeup(w: World, a: Step)
    requires WakeupComing(w) && OnlyUi(w) && Enabled(w, a)
    ensures WakeupComing(Apply(w, a))
  {
  }

  lemma {:induction false} ExecWakeup(w: World, steps: seq<Step>)
    requires WakeupComing(w) && OnlyUi(w)
    ensures ExecAny(w, steps).Some? ==> WakeupComing(ExecAny(w, steps).value) && OnlyUi(ExecAny(w, steps).value)
    decreases |steps|
  {
    if steps != [] && Enabled(w, steps[0]) {
      StepWakeup(w, steps[0]);
      StepOnlyUi(w, steps[0]);
      ExecWakeup(Apply(w, steps[0]), steps[1..]);
    }
  }

  lemma StepInv(w: World, a: Step)
    requires Inv(w) && Enabled(w, a) && (a.TakeReference? ==> SendingHeld(w))
    ensures Inv(Apply(w, a))
  {
    forall d ensures ConservedAt(Apply(w, a), d) { StepConservedAt(w, a, d); }
    StepCalls(w, a);
    StepOnlyUi(w, a);
    StepWakeup(w, a);
  }

  /** Other threads cannot take the UI thread's reference away. */
  lemma StepSendingHeld(w: World, a: Step)
    requires SendingHeld(w) && OnlyUi(w) && Enabled(w, a) && Careful(w, a)
    ensures SendingHeld(Apply(w, a))
  {
    if a.Release? && w.sending == Some(a.source) {
      assert UI in w.holders[a.source] - multiset{a.t};
      LastHolder(w.holders[a.source], a.t);
    }
  }

  lemma {:induction false} ExecInv(w: World, steps: seq<Step>)
    requires Inv(w) && SendingHeld(w)
    ensures Exec(w, steps).Some? ==> Inv(Exec(w, steps).value) && SendingHeld(Exec(w, steps).value)
    decreases |steps|
  {
    if steps != [] && Enabled(w, steps[0]) && Careful(w, steps[0]) {
      StepInv(w, steps[0]);
      StepSendingHeld(w, steps[0]);
      ExecInv(Apply(w, steps[0]), steps[1..]);
    }
  }

  lemma ReachableInv(w: World)
    requires Reachable(w)
    ensures Inv(w) && SendingHeld(w)
  {
    forall d ensures ConservedAt(Init, d) {}
    var steps: seq<Step> :| Exec(Init, steps) == Some(w);
    ExecInv(Init, steps);
  }

  // ---------------------------------------------------------------------------------------
  // Main results
  // ---------------------------------------------------------------------------------------

  /** When responses are sent with care, a source that was created is in exactly one of the four
      places, and one that was not in none: so it is deleted at most once. Deletions happen on the
      UI thread. What a call is about to delete still exists and has no references. */
  lemma Conservation(w: World, d: Source)
    requires Reachable(w)
    ensures Places(w, d) == if d in w.created then 1 else 0
    ensures d in w.created && w.deletions[d] == 0 <==> d in w.holders
    ensures w.deleters <= {UI}
    ensures HasNext(w.calls) ==>
              NextSource(w) in w.holders && w.holders[NextSource(w)] == multiset{} && w.deletions[NextSource(w)] == 0
  {
    ReachableInv(w);
    assert ConservedAt(w, d);
    if HasNext(w.calls) {
      assert ConservedAt(w, NextSource(w));
      NextIsUnreferenced(w);
    }
  }

  /** No lost wake-up, whether responses are sent with care or not: while anything is listed, a
      DeleteDataSources task is queued, or a thread other than the UI thread sits between its push
      and its post, or the UI thread is on its way to the swap. */
  lemma NoLostWakeup(steps: seq<Step>, w: World)
    requires ExecAny(Init, steps) == Some(w) && w.list != []
    ensures UI in w.wakeups || (exists t :: t in w.scheduling && t != UI) || w.entering == Some(UI)
  {
    ExecWakeup(Init, steps);
    if w.scheduling != {} {
      var t :| t in w.scheduling;
    }
  }

  /** Once nobody has anything left to do, every source without references has been deleted. */
  lemma NothingLeaks(w: World, d: Source)
    requires Reachable(w) && d in w.created
    requires w.wakeups == multiset{} && w.scheduling == {} && w.entering.None? && w.calls == []
    ensures Live(w, d) <==> w.deletions[d] == 0
  {
    ReachableInv(w);
    assert ConservedAt(w, d);
  }

  predicate TakenOrGone(w: World, k: nat, sources: seq<Source>) {
    || (k < |w.calls| && w.calls[k].sources == sources)
    || forall d :: d in sources ==> w.deletions[d] > 0
  }

  /** A call keeps its sources until it returns. */
  lemma CallStays(w: World, a: Step, k: nat)
    requires Enabled(w, a) && k < |w.calls| && (a.Return? ==> k < |w.calls| - 1)
    ensures k < |Apply(w, a).calls| && Apply(w, a).calls[k].sources == w.calls[k].sources
  {
  }

  lemma StepTakenOrGone(w: World, a: Step, k: nat, sources: seq<Source>)
    requires CallsOk(w) && Enabled(w, a) && TakenOrGone(w, k, sources)
    ensures TakenOrGone(Apply(w, a), k, sources)
  {
    if k < |w.calls| && w.calls[k].sources == sources {
      if a.Return? && k == |w.calls| - 1 {
        assert CallOk(w, w.calls[k]);
      } else {
        CallStays(w, a, k);
      }
    } else {
      forall d | d in sources ensures Apply(w, a).deletions[d] > 0 { DeletedStays(w, a, d); }
    }
  }

  lemma DeletedStays(w: World, a: Step, d: Source)
    requires Enabled(w, a)
    ensures Apply(w, a).deletions[d] >= w.deletions[d]
  {
  }

  lemma {:induction false} ExecTakenOrGone(w: World, steps: seq<Step>, k: nat, sources: seq<Source>)
    requires Inv(w) && SendingHeld(w) && TakenOrGone(w, k, sources) && Exec(w, steps).Some?
    ensures TakenOrGone(Exec(w, steps).value, k, sources)
    decreases |steps|
  {
    if steps != [] {
      StepInv(w, steps[0]);
      StepSendingHeld(w, steps[0]);
      StepTakenOrGone(w, steps[0], k, sources);
      ExecTakenOrGone(Apply(w, steps[0]), steps[1..], k, sources);
    }
  }

  lemma {:induction false} StaysListed(w: World, steps: seq<Step>, d: Source)
    requires d in w.list && Swap !in steps && Exec(w, steps).Some?
    ensures d in Exec(w, steps).value.list
    decreases |steps|
  {
    if steps != [] {
      assert steps[0] != Swap;
      StaysListed(Apply(w, steps[0]), steps[1..], d);
    }
  }

  /** What is listed is deleted by the end of the next DeleteDataSources, whatever else happens
      meanwhile: other threads listing more, destructors releasing or calling DeleteDataSources.
      The call swaps at `swap` and has returned when no more calls are open than before. */
  lemma ListedIsDeletedByNextCall(w: World, before: seq<Step>, swap: World, after: seq<Step>, end: World, d: Source)
    requires Reachable(w) && d in w.list
    requires Exec(w, before) == Some(swap) && Swap !in before && Enabled(swap, Swap)
    requires Exec(Apply(swap, Swap), after) == Some(end) && |end.calls| <= |swap.calls|
    ensures end.deletions[d] == 1
  {
    ReachableInv(w);
    ExecInv(w, before);
    StaysListed(w, before, d);
    StepInv(swap, Swap);
    StepSendingHeld(swap, Swap);
    ExecTakenOrGone(Apply(swap, Swap), after, |swap.calls|, swap.list);
    ExecInv(Apply(swap, Swap), after);
    assert ConservedAt(end, d);
  }

  // ---------------------------------------------------------------------------------------
  // SendResponse: the check, and then the reference
  // ---------------------------------------------------------------------------------------

  /** A source that the check lets through has no references exactly when it has been swapped out;
      outside DeleteDataSources that cannot be. */
  lemma CheckedSourceIsLive(w: World, d: Source)
    requires Reachable(w) && Enabled(w, Check(d)) && Apply(w, Check(d)).sending == Some(d)
    ensures Live(w, d) <==> !SwappedOut(w, d)
    ensures w.calls == [] ==> Live(w, d)
  {
    ReachableInv(w);
    assert ConservedAt(w, d);
    assert multiset(w.list)[d] == 0;
  }

  /** Other threads step between the check and the reference. */
  predicate OthersOnly(steps: seq<Step>) {
    forall a :: a in steps ==> !OnUi(a)
  }

  ghost predicate SafeWhateverOthersDo(w: World, d: Source) {
    forall steps: seq<Step>, w' :: OthersOnly(steps) && Exec(w, steps) == Some(w') ==> Live(w', d)
  }

  lemma {:induction false} UiKeepsItsReference(w: World, steps: seq<Step>, d: Source)
    requires Holds(w, UI, d) && OthersOnly(steps) && Exec(w, steps).Some?
    ensures Holds(Exec(w, steps).value, UI, d)
    decreases |steps|
  {
    if steps != [] {
      var a := steps[0];
      assert !OnUi(a);
      if a.Release? && a.source == d {
        assert UI in w.holders[d] - multiset{a.t};
        LastHolder(w.holders[d], a.t);
      }
      UiKeepsItsReference(Apply(w, a), steps[1..], d);
    }
  }

  /** The run in which every holder, none of them the UI thread, lets go of `d`. */
  lemma {:induction false} OthersLetGo(w: World, d: Source) returns (steps: seq<Step>, w': World)
    requires Live(w, d) && UI !in w.holders[d] && UI !in w.scheduling
    ensures OthersOnly(steps) && Exec(w, steps) == Some(w') && d in w'.holders && !Live(w', d)
    decreases |w.holders[d]|
  {
    var t :| t in w.holders[d];
    var idle := if t in w.scheduling then Apply(w, PostWakeup(t)) else w;
    var post := if t in w.scheduling then [PostWakeup(t)] else [];
    var next := Apply(idle, Release(t, d));
    var rest: seq<Step> := [];
    w' := next;
    LastHolder(w.holders[d], t);
    if |w.holders[d]| > 1 {
      rest, w' := OthersLetGo(next, d);
    }
    var tail := [Release(t, d)] + rest;
    assert tail[1..] == rest;
    assert Exec(idle, tail) == Some(w');
    steps := post + tail;
    if t in w.scheduling {
      assert steps[1..] == tail;
    } else {
      assert steps == tail;
    }
  }

  /** Whatever other threads do, from here on the source stays referenced, so that taking another
      reference is safe, exactly when the UI thread holds a reference of its own. */
  lemma SendResponseSafety(w: World, d: Source)
    requires Reachable(w)
    ensures SafeWhateverOthersDo(w, d) <==> Holds(w, UI, d)
  {
    ReachableInv(w);
    if Holds(w, UI, d) {
      forall steps: seq<Step>, w' | OthersOnly(steps) && Exec(w, steps) == Some(w') ensures Live(w', d) {
        UiKeepsItsReference(w, steps, d);
      }
    } else if Live(w, d) {
      var steps, w' := OthersLetGo(w, d);
    } else {
      assert Exec(w, []) == Some(w);
    }
  }

  /** The check lets a source through that has been swapped out, and when its reference is taken its
      deletion is still to come. */
  lemma SwappedOutIsNotCaught(w: World, d: Source)
    requires Reachable(w) && SwappedOut(w, d) && w.entering.None? && w.sending.None?
    ensures Enabled(w, Check(d)) && Apply(w, Check(d)).sending == Some(d)
    ensures var w' := Apply(w, Check(d));
            Enabled(w', TakeReference) && Live(Apply(w', TakeReference), d) && SwappedOut(Apply(w', TakeReference), d)
  {
    ReachableInv(w);
    assert ConservedAt(w, d);
    assert multiset(w.list)[d] == 0;
  }

  lemma {:induction false} ExecSnoc(w: World, steps: seq<Step>, a: Step)
    requires Exec(w, steps).Some? && Enabled(Exec(w, steps).value, a) && Careful(Exec(w, steps).value, a)
    ensures Exec(w, steps + [a]) == Some(Apply(Exec(w, steps).value, a))
    decreases |steps|
  {
    if steps == [] {
      assert steps + [a] == [a] && [a][1..] == [];
    } else {
      assert (steps + [a])[1..] == steps[1..] + [a];
      ExecSnoc(Apply(w, steps[0]), steps[1..], a);
    }
  }

  lemma ReachesStep(w: World, w': World, a: Step)
    requires Reaches(w, w') && Enabled(w', a) && Careful(w', a)
    ensures Reaches(w, Apply(w', a))
  {
    var steps: seq<Step> :| Exec(w, steps) == Some(w');
    ExecSnoc(w, steps, a);
  }

  // ---------------------------------------------------------------------------------------
  // What a response sent without a reference can lead to
  // ---------------------------------------------------------------------------------------

  /** What is deleted and what is swapped out, together. */
  function DeletedOrSwapped(w: World, d: Source): nat {
    w.deletions[d] + SwappedCount(w.calls)[d]
  }

  /** The deletions that the innermost call has yet to make. */
  function StepsLeft(w: World): int {
    if w.calls == [] then 0 else |w.calls[|w.calls| - 1].sources| - w.calls[|w.calls| - 1].next
  }

  predicate CallsInRange(w: World) {
    forall k | 0 <= k < |w.calls| :: w.calls[k].next <= |w.calls[k].sources|
  }

  lemma OneDeleted(w: World, d: Source)
    requires HasNext(w.calls) && CallsInRange(w)
    ensures var w' := DeletedNext(w);
            && |w'.calls| == |w.calls| && 0 <= StepsLeft(w') < StepsLeft(w) && CallsInRange(w')
            && w'.entering == w.entering && w'.sending == w.sending
            && DeletedOrSwapped(w', d) == DeletedOrSwapped(w, d)
  {
    SwappedOneLess(w.calls);
  }

  lemma OneReturned(w: World, d: Source)
    requires IsDone(w.calls) && CallsInRange(w)
    ensures var w' := w.(calls := w.calls[..|w.calls| - 1]);
            CallsInRange(w') && DeletedOrSwapped(w', d) == DeletedOrSwapped(w, d)
  {
    var rest, c := w.calls[..|w.calls| - 1], w.calls[|w.calls| - 1];
    assert w.calls == rest + [c] && c.sources[c.next..] == [];
    SwappedPush(rest, c);
  }

  /** The UI thread goes on until its calls of DeleteDataSources are over. */
  lemma {:induction false} CallsReturn(w0: World, w: World, d: Source) returns (w': World)
    requires Reaches(w0, w) && w.entering.None? && w.sending.None? && CallsInRange(w)
    ensures Reaches(w0, w') && w'.deletions[d] == DeletedOrSwapped(w, d)
    decreases |w.calls|, StepsLeft(w)
  {
    if w.calls == [] {
      w' := w;
    } else if StepsLeft(w) > 0 {
      OneDeleted(w, d);
      ReachesStep(w0, w, DeleteNext);
      w' := CallsReturn(w0, Apply(w, DeleteNext), d);
    } else {
      OneReturned(w, d);
      ReachesStep(w0, w, Return);
      w' := CallsReturn(w0, Apply(w, Return), d);
    }
  }

  /** Whatever is listed or swapped out gets deleted as often as it is. */
  lemma ListedGetDeleted(w0: World, w: World, d: Source) returns (w': World)
    requires Reaches(w0, w) && w.entering.None? && w.sending.None? && CallsOk(w)
    ensures Reaches(w0, w') && w'.deletions[d] == w.deletions[d] + multiset(w.list)[d] + SwappedCount(w.calls)[d]
  {
    ReachesStep(w0, w, CallDirectly(UI));
    var entered := Apply(w, CallDirectly(UI));
    ReachesStep(w0, entered, Swap);
    SwappedPush(w.calls, Call(w.list, 0, UI));
    assert w.list[0..] == w.list;
    forall k | 0 <= k < |w.calls| ensures w.calls[k].next <= |w.calls[k].sources| {
      assert CallOk(w, w.calls[k]);
    }
    w' := CallsReturn(w0, Apply(entered, Swap), d);
  }

  /** A source without references gets one for a response on the IO thread, which then lets go. */
  lemma ResponseComesAndGoes(w0: World, w: World, d: Source) returns (w': World)
    requires Reaches(w0, w) && w.entering.None? && w.sending == Some(d) && d in w.holders && !Live(w, d)
    ensures Reaches(w0, w') && w'.list == w.list + [d] && w'.calls == w.calls && w'.deletions == w.deletions
    ensures w'.entering.None? && w'.sending.None?
  {
    ReachesStep(w0, w, TakeReference);
    var held := Apply(w, TakeReference);
    assert held.holders[d] == multiset{IO};
    if IO in held.scheduling {
      ReachesStep(w0, held, PostWakeup(IO));
      held := Apply(held, PostWakeup(IO));
    }
    ReachesStep(w0, held, Release(IO, d));
    w' := Apply(held, Release(IO, d));
  }

  lemma {:induction false} OthersKeep(w: World, steps: seq<Step>)
    requires Inv(w) && OthersOnly(steps) && Exec(w, steps).Some?
    ensures var w' := Exec(w, steps).value;
            Inv(w') && w'.sending == w.sending && w'.entering == w.entering
    decreases |steps|
  {
    if steps != [] {
      assert !OnUi(steps[0]);
      StepInv(w, steps[0]);
      OthersKeep(Apply(w, steps[0]), steps[1..]);
    }
  }

  ghost predicate MayBeDeletedTwice(w: World, d: Source) {
    exists w' :: Reaches(w, w') && w'.deletions[d] > 1
  }

  lemma TwiceDeleted(w: World, d: Source)
    requires Inv(w) && w.entering.None? && w.sending == Some(d) && d in w.holders && !Holds(w, UI, d)
    ensures MayBeDeletedTwice(w, d)
  {
    var steps, alone := [], w;
    assert Exec(w, []) == Some(w);
    if Live(w, d) {
      steps, alone := OthersLetGo(w, d);
    }
    OthersKeep(w, steps);
    assert ConservedAt(alone, d);
    var again := ResponseComesAndGoes(w, alone, d);
    assert multiset(alone.list + [d])[d] == multiset(alone.list)[d] + 1;
    var end := ListedGetDeleted(w, again, d);
  }

  /** When a response is sent, and all others are sent with care, the source can end up deleted twice
      exactly when the check finds it unlisted and the UI thread holds no reference of its own. */
  lemma DeletedTwiceExactlyWhenNotHeld(w: World, d: Source)
    requires Reachable(w) && Enabled(w, Check(d))
    ensures MayBeDeletedTwice(Apply(w, Check(d)), d) <==> d !in w.list && !Holds(w, UI, d)
  {
    ReachableInv(w);
    var checked := Apply(w, Check(d));
    StepInv(w, Check(d));
    if d in w.list || Holds(w, UI, d) {
      forall w' | Reaches(checked, w') ensures w'.deletions[d] <= 1 {
        var steps: seq<Step> :| Exec(checked, steps) == Some(w');
        ExecInv(checked, steps);
        assert ConservedAt(w', d);
      }
    } else {
      TwiceDeleted(checked, d);
    }
  }

  const BothListed := World({0, 1}, map[0 := multiset{}, 1 := multiset{}], [0, 1], {}, multiset{UI}, None, [], None,
                            multiset{}, {})

  /** A source can be found swapped out: two sources lose their last references on the IO thread, and
      the destructor of the first finds the second like that. */
  lemma SwappedOutHappens() returns (w: World)
    ensures Reachable(w) && SwappedOut(w, 1) && w.deletions[0] == 1
  {
    var swapped := BothSwappedOut();
    w := Apply(swapped, DeleteNext);
    ReachesStep(Init, swapped, DeleteNext);
    SwappedPush([], Call([0, 1], 1, UI));
    assert w.calls == [] + [Call([0, 1], 1, UI)] && [0, 1][1..] == [1];
  }

  lemma BothSwappedOut() returns (w: World)
    ensures Reachable(w) && w.calls == [Call([0, 1], 0, UI)] && w.deletions == multiset{}
    ensures w.entering.None? && w.sending.None?
  {
    TwoListed();
    var entered := Apply(BothListed, RunTask(UI));
    ReachesStep(Init, BothListed, RunTask(UI));
    w := Apply(entered, Swap);
    ReachesStep(Init, entered, Swap);
  }

  lemma TwoListed()
    ensures Reachable(BothListed)
  {
    assert Exec(Init, []) == Some(Init);
    var a := OneListed(Init, 0);
    var b := Apply(a, PostWakeup(IO));
    ReachesStep(Init, a, PostWakeup(IO));
    var c := OneListed(b, 1);
    assert c.holders == map[0 := multiset{}, 1 := multiset{}];
    assert c == BothListed;
  }

  predicate IsNew(w: World, d: Source) {
    d !in w.created && d !in w.holders
  }

  predicate UiIsFree(w: World) {
    w.entering.None? && w.sending.None? && UI !in w.scheduling
  }

  /** A source is created and handed to the IO thread. */
  lemma OneShared(w: World, d: Source) returns (w': World)
    requires Reachable(w) && IsNew(w, d) && UiIsFree(w)
    ensures Reachable(w')
    ensures w' == w.(created := w.created + {d}, holders := w.holders[d := multiset{UI} + multiset{IO}])
  {
    var made := Apply(w, Create(d));
    ReachesStep(Init, w, Create(d));
    w' := Apply(made, Retain(UI, IO, d));
    ReachesStep(Init, made, Retain(UI, IO, d));
  }

  /** The UI thread lets go of it. */
  lemma OneHanded(w: World, d: Source) returns (w': World)
    requires Reachable(w) && IsNew(w, d) && UiIsFree(w)
    ensures Reachable(w')
    ensures w' == w.(created := w.created + {d}, holders := w.holders[d := multiset{IO}])
  {
    var shared := OneShared(w, d);
    var both := multiset{UI} + multiset{IO};
    LastHolder(both, UI);
    assert both - multiset{UI} == multiset{IO};
    w' := Apply(shared, Release(UI, d));
    ReachesStep(Init, shared, Release(UI, d));
    assert w'.holders == w.holders[d := multiset{IO}];
  }

  /** And then by the IO thread. */
  lemma OneListed(w: World, d: Source) returns (w': World)
    requires Reachable(w) && IsNew(w, d) && UiIsFree(w) && IO !in w.scheduling
    ensures Reachable(w')
    ensures w' == w.(created := w.created + {d}, holders := w.holders[d := multiset{}], list := w.list + [d],
                     scheduling := if w.list == [] then w.scheduling + {IO} else w.scheduling)
  {
    var handed := OneHanded(w, d);
    w' := Apply(handed, Release(IO, d));
    ReachesStep(Init, handed, Release(IO, d));
    assert w'.holders == w.holders[d := multiset{}];
  }
}
