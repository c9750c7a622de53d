/** When two streams of the same length and duration can have the same encoding. */
module AcoustemeUnique {
  import opened Options
  import opened Acousteme

  /** No two streams of `n` frames and this duration are encoded alike. */
  ghost predicate Distinguishes(n: nat, duration: Option<real>) {
    forall u, v :: |u| == n && |v| == n && Encode(u, duration) == Encode(v, duration) ==> u == v
  }

  /** No two neighbouring boundaries between frames round to the same tick. */
  ghost predicate InnerTicksDiffer(n: nat, dt: real) {
    forall i :: 0 < i < n - 1 ==> Grid(i, dt) != Grid(i + 1, dt)
  }

  lemma {:induction false} FrameLengthPositive(n: nat, duration: Option<real>)
    requires n > 0
    ensures FrameLength(n, duration) > 0.0
  {
    if ValidDuration(duration).Some? {
      var dt := duration.value / n as real;
      Quotient(duration.value, n as real);
      assert dt * n as real > 0.0;
    }
  }

  lemma {:induction false} SameTick(i: nat, j: nat, dt: real)
    requires Tick(i, dt) == Tick(j, dt)
    ensures Grid(i, dt) == Grid(j, dt)
  {
    TickIsGrid(i, dt);
    TickIsGrid(j, dt);
    Quotient(Grid(i, dt) as real, TIME_SCALE);
    Quotient(Grid(j, dt) as real, TIME_SCALE);
  }

  lemma {:induction false} GridAscends(n: nat, dt: real, i: nat, j: nat)
    requires dt > 0.0 && InnerTicksDiffer(n, dt) && 0 < i < j < n
    ensures Grid(i, dt) < Grid(j, dt)
  {
    GridMonotone(j - 1, dt);
    if i < j - 1 { GridAscends(n, dt, i, j - 1); }
  }

  // ---- Different ticks are enough ----------------------------------------------------------

  /** The run that a frame belongs to. */
  lemma {:induction false} FindRun(units: seq<int>, f: nat) returns (k: nat)
    requires f < |units|
    ensures k < |RunStarts(units)| && RunStarts(units)[k] <= f < Stop(units, k)
  {
    RunStartsFacts(units);
    k := |RunStarts(units)| - 1;
    while RunStarts(units)[k] > f
      invariant k < |RunStarts(units)| && f < Stop(units, k)
    {
      k := k - 1;
    }
  }

  /** A boundary between frames is known by its tick. */
  lemma {:induction false} SameBoundary(n: nat, dt: real, i: nat, j: nat)
    requires dt > 0.0 && InnerTicksDiffer(n, dt) && 0 < i < n && 0 < j < n && Tick(i, dt) == Tick(j, dt)
    ensures i == j
  {
    SameTick(i, j, dt);
    if i < j { GridAscends(n, dt, i, j); } else if j < i { GridAscends(n, dt, j, i); }
  }

  lemma {:induction false} SameSegment(u: seq<int>, v: seq<int>, dt: real, lastEnd: real, k: nat)
    requires |u| == |v| > 0 && dt > 0.0 && InnerTicksDiffer(|u|, dt)
    requires k < |RunStarts(u)| && k < |RunStarts(v)| && SegmentAt(u, dt, lastEnd, k) == SegmentAt(v, dt, lastEnd, k)
    ensures RunStarts(u)[k] == RunStarts(v)[k] < |u| && u[RunStarts(u)[k]] == v[RunStarts(v)[k]]
  {
    RunStartsFacts(u);
    RunStartsFacts(v);
    if k > 0 { SameBoundary(|u|, dt, RunStarts(u)[k], RunStarts(v)[k]); }
  }

  lemma {:induction false} SameRuns(u: seq<int>, v: seq<int>)
    requires |u| == |v| && RunStarts(u) == RunStarts(v)
    requires forall k :: 0 <= k < |RunStarts(u)| && RunStarts(u)[k] < |u| ==> u[RunStarts(u)[k]] == v[RunStarts(u)[k]]
    ensures u == v
  {
    forall f | 0 <= f < |u| ensures u[f] == v[f] {
      var k := FindRun(u, f);
      RunIsConstant(u, k, f);
      RunIsConstant(v, k, f);
    }
  }

  lemma {:induction false} SameSegments(u: seq<int>, v: seq<int>, dt: real, lastEnd: real)
    requires |u| == |v| > 0 && dt > 0.0 && InnerTicksDiffer(|u|, dt)
    requires Segments(u, dt, lastEnd) == Segments(v, dt, lastEnd)
    ensures u == v
  {
    assert |RunStarts(u)| == |Segments(u, dt, lastEnd)| == |Segments(v, dt, lastEnd)| == |RunStarts(v)|;
    forall k | 0 <= k < |RunStarts(u)|
      ensures RunStarts(u)[k] == RunStarts(v)[k] < |u| && u[RunStarts(u)[k]] == v[RunStarts(v)[k]]
    {
      assert Segments(u, dt, lastEnd)[k] == Segments(v, dt, lastEnd)[k];
      SameSegment(u, v, dt, lastEnd, k);
    }
    SameRuns(u, v);
  }

  // ---- And necessary -----------------------------------------------------------------------

  /** A stream whose unit changes once, at frame `i`. */
  function StepAt(n: nat, i: nat): seq<int> {
    seq(n, f => if f < i then 0 else 1)
  }

  lemma {:induction false} StepStarts(n: nat, i: nat)
    requires 0 < i && 0 < n
    ensures RunStarts(StepAt(n, i)) == if n <= i then [0] else [0, i]
  {
    assert StepAt(n, i)[..n - 1] == StepAt(n - 1, i);
    if n > 1 { StepStarts(n - 1, i); }
  }

  /** Where two boundaries meet, it cannot be told at which of them the unit changed. */
  lemma {:induction false} MeetingHides(n: nat, dt: real, lastEnd: real, i: nat)
    requires 0 < i < n - 1 && Grid(i, dt) == Grid(i + 1, dt)
    ensures Segments(StepAt(n, i), dt, lastEnd) == Segments(StepAt(n, i + 1), dt, lastEnd)
    ensures StepAt(n, i) != StepAt(n, i + 1)
  {
    StepStarts(n, i);
    StepStarts(n, i + 1);
    TickIsGrid(i, dt);
    TickIsGrid(i + 1, dt);
    assert StepAt(n, i)[i] != StepAt(n, i + 1)[i];
    var e, d := Segments(StepAt(n, i), dt, lastEnd), Segments(StepAt(n, i + 1), dt, lastEnd);
    assert |e| == 2 && e[0] == SegmentAt(StepAt(n, i), dt, lastEnd, 0)
      && e[1] == SegmentAt(StepAt(n, i), dt, lastEnd, 1);
    assert |d| == 2 && d[0] == SegmentAt(StepAt(n, i + 1), dt, lastEnd, 0)
      && d[1] == SegmentAt(StepAt(n, i + 1), dt, lastEnd, 1);
  }

  /**
    The encoding of `n` frames of a given duration can be inverted if and only if no two neighbouring
    boundaries between frames round to the same tick.
  */
  lemma {:induction false} UniqueIff(n: nat, duration: Option<real>)
    requires n > 0
    ensures Distinguishes(n, duration) <==> InnerTicksDiffer(n, FrameLength(n, duration))
  {
    var dt, lastEnd := FrameLength(n, duration), LastEnd(n, duration);
    FrameLengthPositive(n, duration);
    if InnerTicksDiffer(n, dt) {
      forall u, v | |u| == n && |v| == n && Encode(u, duration) == Encode(v, duration) ensures u == v {
        SameSegments(u, v, dt, lastEnd);
      }
    } else {
      var i :| 0 < i < n - 1 && Grid(i, dt) == Grid(i + 1, dt);
      MeetingHides(n, dt, lastEnd, i);
      assert Encode(StepAt(n, i), duration) == Encode(StepAt(n, i + 1), duration);
    }
  }

  /** Every stream with this frame length can be told from all others of its length and duration. */
  ghost predicate AlwaysDistinguishes(dt: real) {
    forall n: nat, duration :: n > 0 && FrameLength(n, duration) == dt ==> Distinguishes(n, duration)
  }

  /** Over all lengths, the encoding can be inverted if and only if a frame is at least one tick. */
  lemma {:induction false} UniqueIffTick(dt: real)
    requires dt > 0.0
    ensures AlwaysDistinguishes(dt) <==> dt >= TICK
  {
    if dt >= TICK {
      forall n: nat, duration | n > 0 && FrameLength(n, duration) == dt ensures Distinguishes(n, duration) {
        forall u, v | |u| == n && |v| == n && Encode(u, duration) == Encode(v, duration) ensures u == v {
          DecodeInvertsEncode(u, duration);
          DecodeInvertsEncode(v, duration);
        }
      }
    } else {
      var i := BoundariesMeet(dt);
      var n := i + 2;
      FrameLengthOf(n, dt);
      UniqueIff(n, Some(At(n, dt)));
      assert !Distinguishes(n, Some(At(n, dt)));
    }
  }
}
