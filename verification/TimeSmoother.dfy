/** Smoothing runs of duplicate timestamps (web/navigation/time_smoother.cc). Times are microseconds;
    the null time is 0. */
module TimeSmoother {
  import opened Wrappers

  class Smoother {
    var lowWaterMark: int
    var highWaterMark: int

    ghost function Abs(): Marks
      reads this
    {
      Marks(lowWaterMark, highWaterMark)
    }

    constructor ()
      ensures Abs() == MarksAfter([])
    {
      lowWaterMark, highWaterMark := 0, 0;
    }

    method GetSmoothedTime(t: int) returns (r: int)
      modifies this
      ensures Abs() == Next(old(Abs()), t) && r == Abs().high
    {
      if lowWaterMark <= t && t <= highWaterMark {
        highWaterMark := highWaterMark + 1;
        return highWaterMark;
      }
      lowWaterMark, highWaterMark := t, t;
      return t;
    }

    /** The calls of a run, on a fresh smoother. */
    method SmoothAll(ts: seq<int>) returns (out: seq<int>)
      requires Abs() == MarksAfter([])
      modifies this
      ensures Abs() == MarksAfter(ts) && out == Outputs(ts)
    {
      out := [];
      for i := 0 to |ts|
        invariant Abs() == MarksAfter(ts[..i]) && out == Outputs(ts[..i])
      {
        assert ts[..i + 1][..i] == ts[..i];
        var r := GetSmoothedTime(ts[i]);
        out := out + [r];
      }
      assert ts[..|ts|] == ts;
    }
  }

  datatype Marks = Marks(low: int, high: int)

  /** The time is in the current run, or restarts it. The answer is the new high-water mark. */
  predicate InRun(m: Marks, t: int) {
    m.low <= t <= m.high
  }

  function Next(m: Marks, t: int): Marks {
    if InRun(m, t) then m.(high := m.high + 1) else Marks(t, t)
  }

  function MarksAfter(ts: seq<int>): Marks {
    if ts == [] then Marks(0, 0) else Next(MarksAfter(ts[..|ts| - 1]), ts[|ts| - 1])
  }

  function Outputs(ts: seq<int>): (out: seq<int>)
    ensures |out| == |ts|
  {
    if ts == [] then [] else Outputs(ts[..|ts| - 1]) + [MarksAfter(ts).high]
  }

  lemma {:induction false} OutputsAt(ts: seq<int>, i: nat)
    requires i < |ts|
    ensures Outputs(ts)[i] == MarksAfter(ts[..i + 1]).high
    ensures Outputs(ts)[..i] == Outputs(ts[..i])
  {
    var before := ts[..|ts| - 1];
    if i < |before| {
      OutputsAt(before, i);
      assert before[..i + 1] == ts[..i + 1] && before[..i] == ts[..i];
      assert Outputs(ts)[..i] == Outputs(before)[..i];
    } else {
      assert ts[..i + 1] == ts && ts[..i] == before;
      assert Outputs(ts)[..i] == Outputs(before);
    }
  }

  // ---------------------------------------------------------------------------------------
  // Inputs that never go back
  // ---------------------------------------------------------------------------------------

  predicate NeverBack(ts: seq<int>) {
    forall i, j | 0 <= i <= j < |ts| :: ts[i] <= ts[j]
  }

  /** `x` is the greatest of ts[j] + (i - j) for j up to i. */
  predicate IsPeak(ts: seq<int>, i: nat, x: int)
    requires i < |ts|
  {
    && (exists j | 0 <= j <= i :: x == ts[j] + (i - j))
    && (forall j | 0 <= j <= i :: ts[j] + (i - j) <= x)
  }

  lemma {:induction false} PeakOfPrefix(ts: seq<int>, n: nat)
    requires NeverBack(ts) && 0 < n <= |ts| && ts[0] != 0
    ensures IsPeak(ts, n - 1, MarksAfter(ts[..n]).high)
    ensures MarksAfter(ts[..n]).low <= ts[n - 1] <= MarksAfter(ts[..n]).high
  {
    assert ts[..n][..n - 1] == ts[..n - 1];
    if n > 1 {
      PeakOfPrefix(ts, n - 1);
      var x := MarksAfter(ts[..n - 1]).high;
      var j :| 0 <= j <= n - 2 && x == ts[j] + (n - 2 - j);
      if ts[n - 1] <= x {
        assert x + 1 == ts[j] + (n - 1 - j);
      } else {
        assert ts[n - 1] == ts[n - 1] + (n - 1 - (n - 1));
      }
    } else {
      assert MarksAfter(ts[..1]) == Next(MarksAfter([]), ts[0]) == Marks(ts[0], ts[0]);
      assert ts[0] == ts[0] + (0 - 0);
    }
  }

  ghost predicate ClosedForm(ts: seq<int>) {
    forall i | 0 <= i < |ts| :: IsPeak(ts, i, Outputs(ts)[i])
  }

  /** The outputs have the closed form exactly when the first time is not the null time, which a
      fresh smoother takes for part of a run. */
  lemma ClosedFormUnlessNullFirst(ts: seq<int>)
    requires NeverBack(ts) && ts != []
    ensures ClosedForm(ts) <==> ts[0] != 0
  {
    if ts[0] != 0 {
      forall i | 0 <= i < |ts| ensures IsPeak(ts, i, Outputs(ts)[i]) {
        OutputsAt(ts, i);
        PeakOfPrefix(ts, i + 1);
      }
    } else {
      OutputsAt(ts, 0);
      assert ts[..1] == [0] && [0][..0] == [];
      assert MarksAfter([0]) == Marks(0, 1);
    }
  }

  /** So times come out in strict order, never early, and the i-th at most i microseconds late. */
  lemma StrictAndBarelyLate(ts: seq<int>, i: nat)
    requires NeverBack(ts) && i < |ts| && ts[0] != 0
    ensures ts[i] <= Outputs(ts)[i] <= ts[i] + i
    ensures forall k | 0 <= k < i :: Outputs(ts)[k] < Outputs(ts)[i]
  {
    ClosedFormUnlessNullFirst(ts);
    assert IsPeak(ts, i, Outputs(ts)[i]);
    assert ts[i] + (i - i) <= Outputs(ts)[i];
    forall k | 0 <= k < i ensures Outputs(ts)[k] < Outputs(ts)[i] {
      assert IsPeak(ts, k, Outputs(ts)[k]);
      var j :| 0 <= j <= k && Outputs(ts)[k] == ts[j] + (k - j);
      assert ts[j] + (i - j) <= Outputs(ts)[i];
    }
  }

  // ---------------------------------------------------------------------------------------
  // Any inputs
  // ---------------------------------------------------------------------------------------

  /** The last time that came out as it went in, if one has: the last that reset the marks. */
  function LastReset(ts: seq<int>): (r: Option<nat>)
    ensures r.Some? ==> r.value < |ts|
  {
    if ts == [] then None
    else if Outputs(ts)[|ts| - 1] == ts[|ts| - 1] then Some(|ts| - 1)
    else LastReset(ts[..|ts| - 1])
  }

  /** Since the last reset the outputs have been low, low + 1, ..., high; before any reset, the
      times following the null time. So no time repeats within a run. */
  lemma {:induction false} RunsAreConsecutive(ts: seq<int>, k: nat)
    ensures var m := MarksAfter(ts);
            match LastReset(ts)
            case None => m.low == 0 && m.high == |ts| && (k < |ts| ==> Outputs(ts)[k] == k + 1)
            case Some(s) => m.low == ts[s] && m.high == m.low + (|ts| - 1 - s) &&
                            (s <= k < |ts| ==> Outputs(ts)[k] == m.low + (k - s))
  {
    if ts != [] {
      RunsAreConsecutive(ts[..|ts| - 1], k);
    }
  }

  function RunStart(ts: seq<int>): int {
    match LastReset(ts)
    case None => 0
    case Some(s) => ts[s]
  }

  function LastOutput(ts: seq<int>): int {
    if ts == [] then 0 else Outputs(ts)[|ts| - 1]
  }

  /** Every output from the ones before it: a time between the start of the run and the last output,
      both included, comes out right behind the last output; any other as it is, and starts a run. */
  lemma OutputExactly(ts: seq<int>, t: int)
    ensures Outputs(ts + [t]) ==
            Outputs(ts) + [if RunStart(ts) <= t <= LastOutput(ts) then LastOutput(ts) + 1 else t]
    ensures RunStart(ts + [t]) == if RunStart(ts) <= t <= LastOutput(ts) then RunStart(ts) else t
  {
    assert (ts + [t])[..|ts|] == ts;
    RunsAreConsecutive(ts, 0);
  }
}
