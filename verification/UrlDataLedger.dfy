/** The references, wake-ups and responses of UrlDataInterleaving, told from the steps alone. */
module UrlDataLedger {
  import opened Wrappers
  import opened UrlDataManager
  import opened UrlDataInterleaving

  /** The source of the last check in `steps`, if there is one. */
  function LastChecked(steps: seq<Step>): Option<Source> {
    if steps == [] then None
    else if steps[|steps| - 1].Check? then Some(steps[|steps| - 1].source)
    else LastChecked(steps[..|steps| - 1])
  }

  /** What a step does to the references to `d`; `checked` is the source of the last check before it. */
  function Booked(held: multiset<Tid>, checked: Option<Source>, a: Step, d: Source): multiset<Tid> {
    match a
    case Create(x) => if x == d then multiset{UI} else held
    case Retain(_, u, x) => if x == d then held + multiset{u} else held
    case Release(t, x) => if x == d then held - multiset{t} else held
    case TakeReference => if checked == Some(d) then held + multiset{IO} else held
    case _ => held
  }

  /** The references to `d`: the creator's, those passed on, and that of every response whose check
      passed; less those given up. */
  function Ledger(steps: seq<Step>, d: Source): multiset<Tid> {
    if steps == [] then multiset{}
    else
      var before, a := steps[..|steps| - 1], steps[|steps| - 1];
      Booked(Ledger(before, d), LastChecked(before), a, d)
  }

  predicate LedgerRight(steps: seq<Step>, w: World, d: Source) {
    && (w.sending.Some? ==> w.sending == LastChecked(steps))
    && (d in w.holders ==> w.holders[d] == Ledger(steps, d) && d in w.created)
  }

  lemma OneMore(steps: seq<Step>, a: Step, d: Source)
    ensures LastChecked(steps + [a]) == if a.Check? then Some(a.source) else LastChecked(steps)
    ensures Ledger(steps + [a], d) == Booked(Ledger(steps, d), LastChecked(steps), a, d)
  {
    assert (steps + [a])[..|steps|] == steps;
  }

  lemma OneHolder(m: multiset<Tid>, t: Tid)
    requires t in m && |m| <= 1
    ensures m == multiset{t} && m - multiset{t} == multiset{}
  {
    assert |m - multiset{t}| == |m| - 1;
    assert m == (m - multiset{t}) + multiset{t};
  }

  lemma ReleaseLedger(steps: seq<Step>, w: World, t: Tid, x: Source, d: Source)
    requires LedgerRight(steps, w, d) && Enabled(w, Release(t, x))
    ensures LedgerRight(steps + [Release(t, x)], Apply(w, Release(t, x)), d)
  {
    OneMore(steps, Release(t, x), d);
    if |w.holders[x]| <= 1 { OneHolder(w.holders[x], t); }
  }

  lemma StepLedger(steps: seq<Step>, w: World, a: Step, d: Source)
    requires LedgerRight(steps, w, d) && Enabled(w, a)
    ensures LedgerRight(steps + [a], Apply(w, a), d)
  {
    if a.Release? {
      ReleaseLedger(steps, w, a.t, a.source, d);
    } else {
      OneMore(steps, a, d);
    }
  }

  lemma {:induction false} RunLedger(done: seq<Step>, w: World, steps: seq<Step>, d: Source)
    requires LedgerRight(done, w, d) && ExecAny(w, steps).Some?
    ensures LedgerRight(done + steps, ExecAny(w, steps).value, d)
    decreases |steps|
  {
    if steps == [] {
      assert done + steps == done;
    } else {
      StepLedger(done, w, steps[0], d);
      RunLedger(done + [steps[0]], Apply(w, steps[0]), steps[1..], d);
      assert done + [steps[0]] + steps[1..] == done + steps;
    }
  }

  /** Over every run, responses sent with care or not: a source that has not been deleted is held by
      exactly those whose references the steps tell. */
  lemma HoldersAreLedger(steps: seq<Step>, w: World, d: Source)
    requires ExecAny(Init, steps) == Some(w) && d in w.holders
    ensures w.holders[d] == Ledger(steps, d)
  {
    RunLedger([], Init, steps, d);
    assert [] + steps == steps;
  }

  lemma {:induction false} CarefulRunsAreRuns(w: World, steps: seq<Step>)
    requires Exec(w, steps).Some?
    ensures ExecAny(w, steps) == Exec(w, steps)
    decreases |steps|
  {
    if steps != [] { CarefulRunsAreRuns(Apply(w, steps[0]), steps[1..]); }
  }

  /** Giving up a reference does nothing to a source that the steps say is still referenced. The last
      reference deletes it, on the UI thread, or lists it, on any other, which schedules a wake-up
      exactly when nothing was listed. */
  lemma LastReferenceDecides(steps: seq<Step>, w: World, t: Tid, d: Source)
    requires ExecAny(Init, steps) == Some(w) && Enabled(w, Release(t, d))
    ensures var w', left := Apply(w, Release(t, d)), Ledger(steps + [Release(t, d)], d);
            if left != multiset{} then
              d in w'.holders && w'.list == w.list && w'.deletions == w.deletions && w'.scheduling == w.scheduling
            else if t == UI then
              && d !in w'.holders && w'.deletions == w.deletions + multiset{d} && w'.list == w.list
              && w'.scheduling == w.scheduling
            else
              && d in w'.holders && w'.list == w.list + [d] && w'.deletions == w.deletions
              && w'.scheduling == if w.list == [] then w.scheduling + {t} else w.scheduling
  {
    HoldersAreLedger(steps, w, d);
    OneMore(steps, Release(t, d), d);
    LastHolder(w.holders[d], t);
  }

  /** When responses are sent with care, whatever deletes a source, the steps tell of no references to
      it by then. */
  lemma DeletedOnlyUnreferenced(steps: seq<Step>, w: World, a: Step, d: Source)
    requires Exec(Init, steps) == Some(w) && Enabled(w, a) && Apply(w, a).deletions[d] > w.deletions[d]
    ensures Ledger(steps + [a], d) == multiset{}
  {
    CarefulRunsAreRuns(Init, steps);
    OneMore(steps, a, d);
    if a.Release? {
      LastReferenceDecides(steps, w, a.t, d);
    } else {
      Conservation(w, d);
      HoldersAreLedger(steps, w, d);
    }
  }

  /** And so it is, with care or not, for whatever lists a source. */
  lemma ListedOnlyUnreferenced(steps: seq<Step>, w: World, a: Step, d: Source)
    requires ExecAny(Init, steps) == Some(w) && Enabled(w, a)
    requires multiset(Apply(w, a).list)[d] > multiset(w.list)[d]
    ensures a.Release? && a.t != UI && a.source == d && Ledger(steps + [a], d) == multiset{}
  {
    if a.Release? {
      LastReferenceDecides(steps, w, a.t, a.source);
    }
  }

  // ---------------------------------------------------------------------------------------
  // Wake-ups
  // ---------------------------------------------------------------------------------------

  function Posts(steps: seq<Step>): nat {
    if steps == [] then 0 else (if steps[0].PostWakeup? then 1 else 0) + Posts(steps[1..])
  }

  function Runs(steps: seq<Step>): nat {
    if steps == [] then 0 else (if steps[0].RunTask? then 1 else 0) + Runs(steps[1..])
  }

  /** A wake-up that is posted runs once. */
  lemma {:induction false} WakeupsAreCounted(w: World, steps: seq<Step>)
    requires ExecAny(w, steps).Some?
    ensures |w.wakeups| + Posts(steps) == |ExecAny(w, steps).value.wakeups| + Runs(steps)
    decreases |steps|
  {
    if steps != [] {
      var a := steps[0];
      if a.RunTask? {
        assert w.wakeups == Apply(w, a).wakeups + multiset{a.t};
      }
      WakeupsAreCounted(Apply(w, a), steps[1..]);
    }
  }

  // ---------------------------------------------------------------------------------------
  // Nobody gets stuck
  // ---------------------------------------------------------------------------------------

  /** The check passes exactly when the source is not listed. */
  lemma CheckPassesExactlyWhen(w: World, d: Source)
    requires Enabled(w, Check(d))
    ensures w.sending.None?
    ensures Apply(w, Check(d)).sending == if d in w.list then None else Some(d)
    ensures Apply(w, Check(d)).holders == w.holders && Apply(w, Check(d)).list == w.list
  {
  }

  lemma {:induction false} SendingExists(w: World, steps: seq<Step>)
    requires w.sending.Some? ==> w.sending.value in w.holders
    requires OnlyUi(w)
    ensures var r := ExecAny(w, steps); r.Some? && r.value.sending.Some? ==> r.value.sending.value in r.value.holders
    decreases |steps|
  {
    if steps != [] && Enabled(w, steps[0]) {
      StepOnlyUi(w, steps[0]);
      SendingExists(Apply(w, steps[0]), steps[1..]);
    }
  }

  /** Whatever the UI thread is in the middle of, it can go on: from a check to the reference, into a
      swap, to the next deletion, and out of a call; and it can run a wake-up when it is free. */
  lemma UiGoesOn(steps: seq<Step>, w: World)
    requires ExecAny(Init, steps) == Some(w)
    ensures w.sending.None? || w.entering.None?
    ensures w.sending.Some? ==> Enabled(w, TakeReference)
    ensures w.entering.Some? ==> Enabled(w, Swap)
    ensures w.sending.None? && w.entering.None? && UI in w.wakeups ==> Enabled(w, RunTask(UI))
    ensures w.sending.None? && w.entering.None? && w.calls != [] ==> Enabled(w, DeleteNext) || Enabled(w, Return)
  {
    SendingExists(Init, steps);
    OneThingAtATime(Init, steps);
  }

  lemma {:induction false} OneThingAtATime(w: World, steps: seq<Step>)
    requires (w.sending.None? || w.entering.None?) && CallsInRange(w) && OnlyUi(w)
    ensures var r := ExecAny(w, steps);
            r.Some? ==> (r.value.sending.None? || r.value.entering.None?) && CallsInRange(r.value)
    decreases |steps|
  {
    if steps != [] && Enabled(w, steps[0]) {
      StepOnlyUi(w, steps[0]);
      OneThingAtATime(Apply(w, steps[0]), steps[1..]);
    }
  }

  /** Other threads are never held up: one that holds a reference may pass it on or give it up, and one
      between its push and its post may post. */
  lemma OthersGoOn(w: World, t: Tid, u: Tid, d: Source)
    requires t != UI
    ensures t in w.scheduling ==> Enabled(w, PostWakeup(t))
    ensures t !in w.scheduling && Holds(w, t, d) ==> Enabled(w, Release(t, d)) && Enabled(w, Retain(t, u, d))
  {
  }

  /** A free UI thread may do anything a destructor may, inside DeleteDataSources or not. */
  lemma UiActsFreely(steps: seq<Step>, w: World, u: Tid, d: Source)
    requires ExecAny(Init, steps) == Some(w) && w.sending.None? && w.entering.None?
    ensures Enabled(w, CallDirectly(UI)) && (d in w.holders ==> Enabled(w, Check(d)))
    ensures d !in w.created ==> Enabled(w, Create(d))
    ensures Holds(w, UI, d) ==> Enabled(w, Release(UI, d)) && Enabled(w, Retain(UI, u, d))
  {
    ExecWakeup(Init, steps);
  }
}
