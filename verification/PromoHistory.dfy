/** Promo records over whole runs: any number of objects of any promos load from the same prefs, and
    then are viewed and closed, each any number of times and in any order. No object loads again
    (chrome/browser/notification_promo.cc), so what one writes may rest on a record that is out of
    date. The exact conditions under which the records tell what has happened are proved here. */
module PromoHistory {
  import opened NotificationPromo

  /** An object: what it loaded, and how many acts there had been by then; an object without an id
      loads nothing, and is as good as loaded before them all. */
  datatype Loaded = Loaded(promo: Promo, record: Record, seen: nat)

  datatype Act = WasViewed(id: int, now: int) | WasClosed(id: int)

  datatype World = World(dict: Dict, objects: seq<Loaded>, acts: seq<Act>)

  /** `o` is the number of an object. */
  datatype Step = Open(promo: Promo) | View(o: nat, now: int) | Close(o: nat)

  const Empty := World(map[], [], [])

  /** A step of an object that does not exist does nothing. */
  function Apply(w: World, a: Step): World {
    match a
    case Open(promo) =>
      var seen := if promo.id == -1 then 0 else |w.acts|;
      w.(objects := w.objects + [Loaded(promo, Load(w.dict, promo, Blank), seen)])
    case View(o, now) =>
      if o >= |w.objects| then w
      else
        var x := w.objects[o];
        w.(dict := Write(w.dict, x.promo.id, Viewed(x.record, now)), acts := w.acts + [WasViewed(x.promo.id, now)])
    case Close(o) =>
      if o >= |w.objects| then w
      else
        var x := w.objects[o];
        w.(dict := if x.record.closed then w.dict else Write(w.dict, x.promo.id, x.record.(closed := true)),
           acts := w.acts + [WasClosed(x.promo.id)])
  }

  function After(steps: seq<Step>): World {
    if steps == [] then Empty else Apply(After(steps[..|steps| - 1]), steps[|steps| - 1])
  }

  /** The objects themselves, on empty prefs, come to what After says. */
  method RunAll(prefs: PrefService, steps: seq<Step>) returns (objects: seq<PromoObject>)
    requires prefs.dict == map[]
    modifies prefs
    ensures prefs.dict == After(steps).dict && |objects| == |After(steps).objects|
    ensures forall o | 0 <= o < |objects| :: AreAlike(objects[o], After(steps).objects[o], prefs)
  {
    objects := [];
    for i := 0 to |steps|
      invariant prefs.dict == After(steps[..i]).dict && |objects| == |After(steps[..i]).objects|
      invariant forall o | 0 <= o < |objects| :: AreAlike(objects[o], After(steps[..i]).objects[o], prefs)
    {
      assert steps[..i + 1][..i] == steps[..i];
      match steps[i]
      case Open(promo) =>
        var x := new PromoObject(prefs, promo);
        x.InitFromPrefs();
        objects := objects + [x];
      case View(o, now) =>
        if o < |objects| {
          objects[o].HandleViewed(now);
        }
      case Close(o) =>
        if o < |objects| {
          objects[o].HandleClosed();
        }
    }
    assert steps[..|steps|] == steps;
  }

  ghost predicate AreAlike(x: PromoObject, y: Loaded, prefs: PrefService)
    reads x
  {
    x.localState == prefs && x.promo == y.promo && x.record == y.record
  }

  // ---------------------------------------------------------------------------------------
  // What has happened to a promo
  // ---------------------------------------------------------------------------------------

  function Views(acts: seq<Act>, id: int): nat {
    if acts == [] then 0
    else
      var a := acts[|acts| - 1];
      Views(acts[..|acts| - 1], id) + if a.WasViewed? && a.id == id then 1 else 0
  }

  function EverClosed(acts: seq<Act>, id: int): bool {
    acts != [] && (acts[|acts| - 1] == WasClosed(id) || EverClosed(acts[..|acts| - 1], id))
  }

  /** The time of the first view at a time that is not 0. */
  function FirstView(acts: seq<Act>, id: int): int {
    if acts == [] then 0
    else
      var before, a := FirstView(acts[..|acts| - 1], id), acts[|acts| - 1];
      if before == 0 && a.WasViewed? && a.id == id then a.now else before
  }

  /** There has been a view of the promo since the object loaded. */
  predicate MissedView(w: World, x: Loaded) {
    exists i :: x.seen <= i < |w.acts| && w.acts[i].WasViewed? && w.acts[i].id == x.promo.id
  }

  /** The promo has been closed since the object loaded. */
  predicate MissedClose(w: World, x: Loaded) {
    exists i :: x.seen <= i < |w.acts| && w.acts[i] == WasClosed(x.promo.id)
  }

  lemma Snoc(acts: seq<Act>, a: Act, id: int)
    ensures Views(acts + [a], id) == Views(acts, id) + if a.WasViewed? && a.id == id then 1 else 0
    ensures EverClosed(acts + [a], id) <==> EverClosed(acts, id) || a == WasClosed(id)
    ensures FirstView(acts + [a], id) ==
            if FirstView(acts, id) == 0 && a.WasViewed? && a.id == id then a.now else FirstView(acts, id)
  {
    assert (acts + [a])[..|acts|] == acts;
  }

  /** Counting from an earlier point: the counts agree exactly when nothing was missed since. */
  lemma {:induction false} Since(acts: seq<Act>, from: nat, id: int)
    requires from <= |acts|
    ensures Views(acts[..from], id) <= Views(acts, id)
    ensures Views(acts[..from], id) == Views(acts, id) <==>
            forall i | from <= i < |acts| :: !(acts[i].WasViewed? && acts[i].id == id)
    ensures EverClosed(acts, id) <==>
            EverClosed(acts[..from], id) || exists i :: from <= i < |acts| && acts[i] == WasClosed(id)
    ensures Views(acts[..from], id) == Views(acts, id) ==> FirstView(acts[..from], id) == FirstView(acts, id)
  {
    if from == |acts| {
      assert acts[..from] == acts;
    } else {
      var before := acts[..|acts| - 1];
      assert acts == before + [acts[|acts| - 1]] && acts[..from] == before[..from];
      Since(before, from, id);
      Snoc(before, acts[|acts| - 1], id);
    }
  }

  lemma MissedCounts(w: World, x: Loaded)
    requires x.seen <= |w.acts|
    ensures Views(w.acts[..x.seen], x.promo.id) <= Views(w.acts, x.promo.id)
    ensures MissedView(w, x) <==> Views(w.acts[..x.seen], x.promo.id) != Views(w.acts, x.promo.id)
    ensures EverClosed(w.acts, x.promo.id) <==> EverClosed(w.acts[..x.seen], x.promo.id) || MissedClose(w, x)
    ensures !MissedView(w, x) ==> FirstView(w.acts[..x.seen], x.promo.id) == FirstView(w.acts, x.promo.id)
  {
    Since(w.acts, x.seen, x.promo.id);
  }

  // ---------------------------------------------------------------------------------------
  // When the stored view counts are right
  // ---------------------------------------------------------------------------------------

  predicate ViewsRight(w: World, id: int) {
    RecordOf(w.dict, id).views == Views(w.acts, id)
  }

  /** Whatever the step writes for `id`, it knows of every view so far. */
  predicate KnowsViews(w: World, a: Step, id: int) {
    !a.Open? && a.o < |w.objects| && w.objects[a.o].promo.id == id ==>
      !MissedView(w, w.objects[a.o]) || (a.Close? && w.objects[a.o].record.closed)
  }

  predicate LoadedViews(w: World, id: int) {
    forall o | 0 <= o < |w.objects| && w.objects[o].promo.id == id ::
      w.objects[o].seen <= |w.acts| && w.objects[o].record.views == Views(w.acts[..w.objects[o].seen], id)
  }

  lemma SeenStay(w: World, a: Step, o: nat)
    requires o < |w.objects| && w.objects[o].seen <= |w.acts|
    ensures var w' := Apply(w, a);
            && o < |w'.objects| && w'.objects[o] == w.objects[o] && w.objects[o].seen <= |w'.acts|
            && w'.acts[..w.objects[o].seen] == w.acts[..w.objects[o].seen]
  {
  }

  lemma StepLoadedViews(w: World, a: Step, id: int)
    requires LoadedViews(w, id) && ViewsRight(w, id)
    ensures LoadedViews(Apply(w, a), id)
  {
    var w' := Apply(w, a);
    forall o | 0 <= o < |w'.objects| && w'.objects[o].promo.id == id
      ensures w'.objects[o].seen <= |w'.acts| && w'.objects[o].record.views == Views(w'.acts[..w'.objects[o].seen], id)
    {
      if o < |w.objects| {
        SeenStay(w, a, o);
      } else {
        assert w.acts[..|w.acts|] == w.acts;
      }
    }
  }

  lemma ViewViewsRight(w: World, o: nat, now: int, id: int)
    requires LoadedViews(w, id) && ViewsRight(w, id) && o < |w.objects|
    ensures ViewsRight(Apply(w, View(o, now)), id) <==> KnowsViews(w, View(o, now), id)
  {
    var x := w.objects[o];
    Snoc(w.acts, WasViewed(x.promo.id, now), id);
    OtherRecordsStay(w.dict, x.promo.id, Viewed(x.record, now), id);
    if x.promo.id == id {
      MissedCounts(w, x);
    }
  }

  lemma CloseViewsRight(w: World, o: nat, id: int)
    requires LoadedViews(w, id) && ViewsRight(w, id) && o < |w.objects|
    ensures ViewsRight(Apply(w, Close(o)), id) <==> KnowsViews(w, Close(o), id)
  {
    var x := w.objects[o];
    Snoc(w.acts, WasClosed(x.promo.id), id);
    OtherRecordsStay(w.dict, x.promo.id, x.record.(closed := true), id);
    if x.promo.id == id {
      MissedCounts(w, x);
    }
  }

  lemma StepViewsRight(w: World, a: Step, id: int)
    requires LoadedViews(w, id) && ViewsRight(w, id)
    ensures ViewsRight(Apply(w, a), id) <==> KnowsViews(w, a, id)
  {
    if !a.Open? && a.o < |w.objects| {
      match a
      case View(o, now) => ViewViewsRight(w, o, now, id);
      case Close(o) => CloseViewsRight(w, o, id);
    }
  }

  /** After the whole run, and after every part of it from the beginning. */
  predicate AlwaysViewsRight(steps: seq<Step>, id: int) {
    ViewsRight(After(steps), id) && (steps == [] || AlwaysViewsRight(steps[..|steps| - 1], id))
  }

  predicate AlwaysKnowsViews(steps: seq<Step>, id: int) {
    steps == [] ||
    (var before, a := steps[..|steps| - 1], steps[|steps| - 1];
     AlwaysKnowsViews(before, id) && KnowsViews(After(before), a, id))
  }

  /** Views are counted right all along a run exactly when everything that is ever written for the
      promo is written by an object that loaded after the last view. */
  lemma {:induction false} ViewsRightExactlyWhen(steps: seq<Step>, id: int)
    ensures AlwaysViewsRight(steps, id) <==> AlwaysKnowsViews(steps, id)
    ensures AlwaysViewsRight(steps, id) ==> LoadedViews(After(steps), id)
  {
    if steps != [] {
      var before, a := steps[..|steps| - 1], steps[|steps| - 1];
      ViewsRightExactlyWhen(before, id);
      if AlwaysViewsRight(before, id) {
        StepLoadedViews(After(before), a, id);
        StepViewsRight(After(before), a, id);
      }
    }
  }

  // ---------------------------------------------------------------------------------------
  // When the stored closed marks are right
  // ---------------------------------------------------------------------------------------

  predicate ClosedRight(w: World, id: int) {
    RecordOf(w.dict, id).closed == EverClosed(w.acts, id)
  }

  /** A view of `id` knows if the promo has been closed. */
  predicate KnowsClosed(w: World, a: Step, id: int) {
    a.View? && a.o < |w.objects| && w.objects[a.o].promo.id == id ==>
      MissedClose(w, w.objects[a.o]) ==> w.objects[a.o].record.closed
  }

  predicate LoadedClosed(w: World, id: int) {
    forall o | 0 <= o < |w.objects| && w.objects[o].promo.id == id ::
      w.objects[o].seen <= |w.acts| && w.objects[o].record.closed == EverClosed(w.acts[..w.objects[o].seen], id)
  }

  lemma StepLoadedClosed(w: World, a: Step, id: int)
    requires LoadedClosed(w, id) && ClosedRight(w, id)
    ensures LoadedClosed(Apply(w, a), id)
  {
    var w' := Apply(w, a);
    forall o | 0 <= o < |w'.objects| && w'.objects[o].promo.id == id
      ensures w'.objects[o].seen <= |w'.acts|
      ensures w'.objects[o].record.closed == EverClosed(w'.acts[..w'.objects[o].seen], id)
    {
      if o < |w.objects| {
        SeenStay(w, a, o);
      } else {
        assert w.acts[..|w.acts|] == w.acts;
      }
    }
  }

  lemma ViewClosedRight(w: World, o: nat, now: int, id: int)
    requires LoadedClosed(w, id) && ClosedRight(w, id) && o < |w.objects|
    ensures ClosedRight(Apply(w, View(o, now)), id) <==> KnowsClosed(w, View(o, now), id)
  {
    var x := w.objects[o];
    Snoc(w.acts, WasViewed(x.promo.id, now), id);
    OtherRecordsStay(w.dict, x.promo.id, Viewed(x.record, now), id);
    if x.promo.id == id {
      MissedCounts(w, x);
    }
  }

  lemma CloseClosedRight(w: World, o: nat, id: int)
    requires LoadedClosed(w, id) && ClosedRight(w, id) && o < |w.objects|
    ensures ClosedRight(Apply(w, Close(o)), id)
  {
    var x := w.objects[o];
    Snoc(w.acts, WasClosed(x.promo.id), id);
    OtherRecordsStay(w.dict, x.promo.id, x.record.(closed := true), id);
    if x.promo.id == id {
      MissedCounts(w, x);
    }
  }

  lemma StepClosedRight(w: World, a: Step, id: int)
    requires LoadedClosed(w, id) && ClosedRight(w, id)
    ensures ClosedRight(Apply(w, a), id) <==> KnowsClosed(w, a, id)
  {
    if !a.Open? && a.o < |w.objects| {
      match a
      case View(o, now) => ViewClosedRight(w, o, now, id);
      case Close(o) => CloseClosedRight(w, o, id);
    }
  }

  /** After the whole run, and after every part of it from the beginning. */
  predicate AlwaysClosedRight(steps: seq<Step>, id: int) {
    ClosedRight(After(steps), id) && (steps == [] || AlwaysClosedRight(steps[..|steps| - 1], id))
  }

  predicate AlwaysKnowsClosed(steps: seq<Step>, id: int) {
    steps == [] ||
    (var before, a := steps[..|steps| - 1], steps[|steps| - 1];
     AlwaysKnowsClosed(before, id) && KnowsClosed(After(before), a, id))
  }

  /** The closed mark is right all along a run exactly when no view is by an object that loaded the
      promo open and before it was closed. */
  lemma {:induction false} ClosedRightExactlyWhen(steps: seq<Step>, id: int)
    ensures AlwaysClosedRight(steps, id) <==> AlwaysKnowsClosed(steps, id)
    ensures AlwaysClosedRight(steps, id) ==> LoadedClosed(After(steps), id)
  {
    if steps != [] {
      var before, a := steps[..|steps| - 1], steps[|steps| - 1];
      ClosedRightExactlyWhen(before, id);
      if AlwaysClosedRight(before, id) {
        StepLoadedClosed(After(before), a, id);
        StepClosedRight(After(before), a, id);
      }
    }
  }

  // ---------------------------------------------------------------------------------------
  // When the records are right, and what follows
  // ---------------------------------------------------------------------------------------

  /** What the record would be if it told all that has happened. */
  function RecordFromHistory(acts: seq<Act>, id: int): Record {
    Record(FirstView(acts, id), Views(acts, id), EverClosed(acts, id))
  }

  predicate AlwaysRight(steps: seq<Step>, id: int) {
    && RecordOf(After(steps).dict, id) == RecordFromHistory(After(steps).acts, id)
    && (steps == [] || AlwaysRight(steps[..|steps| - 1], id))
  }

  predicate FirstViewsRight(w: World, id: int) {
    && RecordOf(w.dict, id).firstViewTime == FirstView(w.acts, id)
    && forall o | 0 <= o < |w.objects| && w.objects[o].promo.id == id ::
         && w.objects[o].seen <= |w.acts|
         && w.objects[o].record.firstViewTime == FirstView(w.acts[..w.objects[o].seen], id)
  }

  lemma StepFirstViews(w: World, a: Step, id: int)
    requires FirstViewsRight(w, id) && KnowsViews(w, a, id)
    ensures FirstViewsRight(Apply(w, a), id)
  {
    var w' := Apply(w, a);
    if !a.Open? && a.o < |w.objects| {
      var x := w.objects[a.o];
      Snoc(w.acts, if a.View? then WasViewed(x.promo.id, a.now) else WasClosed(x.promo.id), id);
      OtherRecordsStay(w.dict, x.promo.id, if a.View? then Viewed(x.record, a.now) else x.record.(closed := true), id);
      if x.promo.id == id {
        MissedCounts(w, x);
      }
    }
    forall o | 0 <= o < |w'.objects| && w'.objects[o].promo.id == id
      ensures w'.objects[o].seen <= |w'.acts|
      ensures w'.objects[o].record.firstViewTime == FirstView(w'.acts[..w'.objects[o].seen], id)
    {
      if o < |w.objects| {
        SeenStay(w, a, o);
      } else {
        assert w.acts[..|w.acts|] == w.acts;
      }
    }
  }

  lemma {:induction false} FirstViewsFollow(steps: seq<Step>, id: int)
    requires AlwaysKnowsViews(steps, id)
    ensures FirstViewsRight(After(steps), id)
  {
    if steps != [] {
      FirstViewsFollow(steps[..|steps| - 1], id);
      StepFirstViews(After(steps[..|steps| - 1]), steps[|steps| - 1], id);
    }
  }

  /** For every run and every id, unset or not: the stored record tells all that has happened, all
      along the run, exactly when no object writes or views with what it should know missing. */
  lemma {:induction false} RightExactlyWhenKnown(steps: seq<Step>, id: int)
    ensures AlwaysRight(steps, id) <==> AlwaysKnowsViews(steps, id) && AlwaysKnowsClosed(steps, id)
  {
    ViewsRightExactlyWhen(steps, id);
    ClosedRightExactlyWhen(steps, id);
    if steps != [] {
      RightExactlyWhenKnown(steps[..|steps| - 1], id);
      ViewsRightExactlyWhen(steps[..|steps| - 1], id);
      ClosedRightExactlyWhen(steps[..|steps| - 1], id);
    }
    if AlwaysKnowsViews(steps, id) {
      FirstViewsFollow(steps, id);
    }
  }

  predicate MayStep(w: World, a: Step) {
    a.View? && a.o < |w.objects| ==> Showable(w.objects[a.o].promo, w.objects[a.o].record, a.now)
  }

  /** Objects are viewed only when they can be shown. */
  predicate Guarded(steps: seq<Step>) {
    steps == [] ||
    (Guarded(steps[..|steps| - 1]) && MayStep(After(steps[..|steps| - 1]), steps[|steps| - 1]))
  }

  lemma OneMore(steps: seq<Step>, a: Step)
    ensures After(steps + [a]) == Apply(After(steps), a)
    ensures Guarded(steps + [a]) <==> Guarded(steps) && MayStep(After(steps), a)
  {
    assert (steps + [a])[..|steps|] == steps;
  }

  /** Every object of the promo has this cap. */
  predicate Capped(w: World, id: int, maxViews: int) {
    forall o | 0 <= o < |w.objects| && w.objects[o].promo.id == id :: w.objects[o].promo.maxViews == maxViews
  }

  lemma CappedBefore(w: World, a: Step, id: int, maxViews: int)
    requires Capped(Apply(w, a), id, maxViews)
    ensures Capped(w, id, maxViews)
  {
    forall o | 0 <= o < |w.objects| && w.objects[o].promo.id == id ensures w.objects[o].promo.maxViews == maxViews {
      assert Apply(w, a).objects[o] == w.objects[o];
    }
  }

  /** With a fixed positive cap, a promo whose objects know of every view is viewed no more often
      than that, whatever the other promos' objects do. */
  lemma {:induction false} ViewsStayWithinCap(steps: seq<Step>, id: int, maxViews: int)
    requires Guarded(steps) && AlwaysKnowsViews(steps, id) && Capped(After(steps), id, maxViews) && maxViews > 0
    ensures Views(After(steps).acts, id) <= maxViews
  {
    if steps != [] {
      var before, a := steps[..|steps| - 1], steps[|steps| - 1];
      var w := After(before);
      CappedBefore(w, a, id, maxViews);
      ViewsStayWithinCap(before, id, maxViews);
      if !a.Open? && a.o < |w.objects| {
        var x := w.objects[a.o];
        Snoc(w.acts, if a.View? then WasViewed(x.promo.id, a.now) else WasClosed(x.promo.id), id);
        if x.promo.id == id {
          ViewsRightExactlyWhen(before, id);
          MissedCounts(w, x);
        }
      }
    }
  }

  /** The check of the cap, made on an object, is the check made on the history, for every cap,
      exactly when the object has missed no view. */
  lemma CapCheckedExactlyWhen(steps: seq<Step>, o: nat)
    requires o < |After(steps).objects| && AlwaysKnowsViews(steps, After(steps).objects[o].promo.id)
    ensures var w := After(steps);
            var x := w.objects[o];
            !MissedView(w, x) <==>
            forall cap: int | cap > 0 ::
              ExceedsMaxViews(x.promo.(maxViews := cap), x.record) <==> Views(w.acts, x.promo.id) >= cap
  {
    var w := After(steps);
    var x := w.objects[o];
    ViewsRightExactlyWhen(steps, x.promo.id);
    MissedCounts(w, x);
    if MissedView(w, x) {
      var cap := Views(w.acts, x.promo.id);
      assert !ExceedsMaxViews(x.promo.(maxViews := cap), x.record);
    }
  }

  /** Closing is for good: when every view knows if the promo has been closed, none comes after. */
  lemma ClosedForGood(steps: seq<Step>, a: Step, id: int)
    requires Guarded(steps + [a]) && AlwaysKnowsClosed(steps + [a], id)
    requires a.View? && a.o < |After(steps).objects| && After(steps).objects[a.o].promo.id == id
    ensures !EverClosed(After(steps).acts, id)
  {
    assert (steps + [a])[..|steps|] == steps;
    ClosedRightExactlyWhen(steps, id);
    MissedCounts(After(steps), After(steps).objects[a.o]);
  }

  /** The first view time, once set, stays. */
  lemma FirstViewStays(steps: seq<Step>, a: Step, id: int)
    requires AlwaysKnowsViews(steps + [a], id) && RecordOf(After(steps).dict, id).firstViewTime != 0
    ensures RecordOf(After(steps + [a]).dict, id).firstViewTime == RecordOf(After(steps).dict, id).firstViewTime
  {
    assert (steps + [a])[..|steps|] == steps;
    FirstViewsFollow(steps, id);
    FirstViewsFollow(steps + [a], id);
    var w := After(steps);
    if !a.Open? && a.o < |w.objects| {
      var x := w.objects[a.o];
      Snoc(w.acts, if a.View? then WasViewed(x.promo.id, a.now) else WasClosed(x.promo.id), id);
    }
  }

  /** With records that tell what has happened, an object that has missed nothing can be shown exactly
      when the promo has never been closed, has text, has been viewed less often than its cap, is not
      over its time since the first view, and is within its dates. */
  lemma ShownExactlyWhen(steps: seq<Step>, o: nat, now: int)
    requires o < |After(steps).objects| && AlwaysRight(steps, After(steps).objects[o].promo.id)
    requires !MissedView(After(steps), After(steps).objects[o]) && !MissedClose(After(steps), After(steps).objects[o])
    ensures var acts, x := After(steps).acts, After(steps).objects[o];
            Showable(x.promo, x.record, now) <==>
            && !EverClosed(acts, x.promo.id)
            && x.promo.text != ""
            && (x.promo.maxViews == 0 || Views(acts, x.promo.id) < x.promo.maxViews)
            && (x.promo.maxSeconds == 0 || FirstView(acts, x.promo.id) == 0 ||
                now <= FirstView(acts, x.promo.id) + x.promo.maxSeconds)
            && x.promo.start < now && now < x.promo.end
  {
    var w := After(steps);
    var x := w.objects[o];
    RightExactlyWhenKnown(steps, x.promo.id);
    ViewsRightExactlyWhen(steps, x.promo.id);
    ClosedRightExactlyWhen(steps, x.promo.id);
    FirstViewsFollow(steps, x.promo.id);
    MissedCounts(w, x);
  }

  /** Views stay within the dates, and, when every write knows of views, within the time allowed after
      the first one. */
  lemma ViewsStayWithinTime(steps: seq<Step>, a: Step, id: int)
    requires Guarded(steps + [a]) && AlwaysKnowsViews(steps + [a], id)
    requires a.View? && a.o < |After(steps).objects| && After(steps).objects[a.o].promo.id == id
    ensures var promo, first := After(steps).objects[a.o].promo, FirstView(After(steps).acts, id);
            && promo.start < a.now < promo.end
            && (promo.maxSeconds != 0 && first != 0 ==> a.now <= first + promo.maxSeconds)
  {
    assert (steps + [a])[..|steps|] == steps;
    FirstViewsFollow(steps, id);
    MissedCounts(After(steps), After(steps).objects[a.o]);
  }

  // ---------------------------------------------------------------------------------------
  // What goes wrong otherwise
  // ---------------------------------------------------------------------------------------

  lemma FirstLoad(promo: Promo)
    ensures After([Open(promo)]) == World(map[], [Loaded(promo, Blank, 0)], []) && Guarded([Open(promo)])
  {
    assert [Open(promo)][..0] == [];
  }

  /** One load, and then `n` views. */
  function ViewedOften(promo: Promo, now: int, n: nat): seq<Step> {
    if n == 0 then [Open(promo)] else ViewedOften(promo, now, n - 1) + [View(0, now)]
  }

  /** An object has been loaded and viewed `n` times, whenever it could be shown; prefs count one view. */
  predicate ViewedFromOneLoad(steps: seq<Step>, promo: Promo, n: nat) {
    && Guarded(steps) && After(steps).objects == [Loaded(promo, Blank, 0)]
    && Views(After(steps).acts, promo.id) == n
    && (n > 0 ==> RecordOf(After(steps).dict, promo.id).views == 1)
  }

  lemma ViewAgain(steps: seq<Step>, promo: Promo, now: int, n: nat)
    requires ViewedFromOneLoad(steps, promo, n) && Showable(promo, Blank, now)
    ensures ViewedFromOneLoad(steps + [View(0, now)], promo, n + 1)
  {
    OneMore(steps, View(0, now));
    FreshView(After(steps), promo, 0, now);
  }

  /** Whatever its id and its cap, a promo that can be shown once can be viewed any number of times
      by an object that loads once. */
  lemma {:induction false} OneObjectIsNeverCapped(promo: Promo, now: int, n: nat)
    requires Showable(promo, Blank, now)
    ensures ViewedFromOneLoad(ViewedOften(promo, now, n), promo, n)
  {
    if n == 0 {
      FirstLoad(promo);
    } else {
      OneObjectIsNeverCapped(promo, now, n - 1);
      ViewAgain(ViewedOften(promo, now, n - 1), promo, now, n - 1);
    }
  }

  /** A view by an object that has loaded nothing. */
  lemma FreshView(w: World, promo: Promo, o: nat, now: int)
    requires o < |w.objects| && w.objects[o].promo == promo && w.objects[o].record == Blank
    ensures var w' := Apply(w, View(o, now));
            && w'.objects == w.objects
            && Views(w'.acts, promo.id) == Views(w.acts, promo.id) + 1
            && RecordOf(w'.dict, promo.id).views == 1
  {
    Snoc(w.acts, WasViewed(promo.id, now), promo.id);
    OtherRecordsStay(w.dict, promo.id, Viewed(Blank, now), promo.id);
  }

  /** A load before every view, `n` times over. */
  function LoadedAndViewedOften(promo: Promo, now: int, n: nat): seq<Step> {
    if n == 0 then [] else LoadedAndViewedOften(promo, now, n - 1) + [Open(promo)] + [View(n - 1, now)]
  }

  /** `n` objects without an id have been loaded, and viewed `n` times, whenever they could be shown. */
  predicate ViewedUnset(steps: seq<Step>, n: nat) {
    Guarded(steps) && |After(steps).objects| == n && Views(After(steps).acts, -1) == n
  }

  lemma LoadAndView(steps: seq<Step>, promo: Promo, now: int, n: nat)
    requires ViewedUnset(steps, n) && promo.id == -1 && Showable(promo, Blank, now)
    ensures ViewedUnset(steps + [Open(promo)] + [View(n, now)], n + 1)
  {
    var w := After(steps);
    var loaded := Apply(w, Open(promo));
    assert loaded.objects == w.objects + [Loaded(promo, Blank, 0)];
    OneMore(steps, Open(promo));
    OneMore(steps + [Open(promo)], View(n, now));
    FreshView(loaded, promo, n, now);
  }

  /** Without an id loading does not help: a promo that can be shown once can be viewed any number
      of times, although it is loaded before every view. */
  lemma {:induction false} UnsetIdIsNeverCapped(promo: Promo, now: int, n: nat)
    requires promo.id == -1 && Showable(promo, Blank, now)
    ensures ViewedUnset(LoadedAndViewedOften(promo, now, n), n)
  {
    if n > 0 {
      UnsetIdIsNeverCapped(promo, now, n - 1);
      LoadAndView(LoadedAndViewedOften(promo, now, n - 1), promo, now, n - 1);
    }
  }

  /** An object that has loaded a promo open is viewed, and then closed: from whatever prefs, the
      view and its time are gone from the record, and only the closed mark is there. */
  lemma CloseForgetsView(w: World, o: nat, now: int)
    requires o < |w.objects| && !w.objects[o].record.closed
    ensures var w' := Apply(Apply(w, View(o, now)), Close(o));
            var id := w.objects[o].promo.id;
            && Views(w'.acts, id) == Views(w.acts, id) + 1
            && RecordOf(w'.dict, id) == w.objects[o].record.(closed := true)
  {
    var x := w.objects[o];
    Snoc(w.acts, WasViewed(x.promo.id, now), x.promo.id);
    Snoc(w.acts + [WasViewed(x.promo.id, now)], WasClosed(x.promo.id), x.promo.id);
    OtherRecordsStay(Apply(w, View(o, now)).dict, x.promo.id, x.record.(closed := true), x.promo.id);
  }

  /** Of two objects of one promo that have loaded it open, one is closed, and then the other is
      viewed: from whatever prefs, the promo is open again. */
  lemma StaleViewReopens(w: World, o: nat, p: nat, now: int)
    requires o < |w.objects| && p < |w.objects| && w.objects[o].promo.id == w.objects[p].promo.id
    requires !w.objects[o].record.closed && !w.objects[p].record.closed
    ensures var closed := Apply(w, Close(o));
            var id := w.objects[o].promo.id;
            && RecordOf(closed.dict, id).closed && EverClosed(closed.acts, id)
            && !RecordOf(Apply(closed, View(p, now)).dict, id).closed
  {
    var x := w.objects[o];
    Snoc(w.acts, WasClosed(x.promo.id), x.promo.id);
    OtherRecordsStay(w.dict, x.promo.id, x.record.(closed := true), x.promo.id);
    OtherRecordsStay(Apply(w, Close(o)).dict, x.promo.id, Viewed(w.objects[p].record, now), x.promo.id);
  }
}
