/**
  Run-length encoding of acousteme frames into timed segments. Times are exact reals rounded half to
  even, to 4 decimal places, the very last end to 6.
*/
module Acousteme {
  import opened Options

  datatype Segment = Segment(start: real, end: real, unit: int)

  const HOP_SEC: real := 0.02
  const TIME_SCALE: real := 10_000.0
  const END_SCALE: real := 1_000_000.0

  /** The grid size of the rounded times, in seconds. */
  const TICK: real := 0.0001

  // ---- Rounding ----------------------------------------------------------------------------

  /** The integer nearest to `y`, the even one of two equally near. */
  function Nearest(y: real): int {
    var f := y.Floor;
    var rest := y - f as real;
    if rest < 0.5 || (rest == 0.5 && f % 2 == 0) then f else f + 1
  }

  /** Rounding to the multiples of one `scale`-th. */
  function Round(x: real, scale: real): real
    requires scale > 0.0
  {
    Steps(x, scale) as real / scale
  }

  /** The number of the multiple that is nearest. */
  function Steps(x: real, scale: real): int {
    Nearest(x * scale)
  }

  lemma {:induction false} NearestIsNear(y: real)
    ensures -0.5 <= Nearest(y) as real - y <= 0.5
  {}

  lemma {:induction false} NearestOfInteger(k: int)
    ensures Nearest(k as real) == k
  {}

  lemma {:induction false} NearestMonotone(x: real, y: real)
    requires x <= y
    ensures Nearest(x) <= Nearest(y)
  {
    assert x.Floor <= y.Floor;
  }

  lemma {:induction false} Quotient(a: real, b: real)
    requires b > 0.0
    ensures (a / b) * b == a
  {}

  lemma {:induction false} Scaled(a: real, b: real, c: real)
    requires a <= b && c > 0.0
    ensures a * c <= b * c && a / c <= b / c
  {}

  lemma {:induction false} SameMultiple(a: real, b: real, c: real)
    requires a * c == b * c && c > 0.0
    ensures a == b
  {
    assert (a - b) * c == 0.0;
  }

  lemma {:induction false} DivideShifted(x: real, h: real, s: real)
    requires s > 0.0
    ensures (x * s + h) / s == x + h / s
  {
    Quotient(x * s + h, s);
    Quotient(h, s);
    assert (x + h / s) * s == x * s + (h / s) * s;
    SameMultiple((x * s + h) / s, x + h / s, s);
  }

  /** Rounding moves a time by at most half a step. */
  lemma {:induction false} RoundIsNear(x: real, scale: real)
    requires scale > 0.0
    ensures -0.5 / scale <= Round(x, scale) - x <= 0.5 / scale
  {
    NearestIsNear(x * scale);
    Scaled(x * scale + -0.5, Nearest(x * scale) as real, scale);
    Scaled(Nearest(x * scale) as real, x * scale + 0.5, scale);
    DivideShifted(x, 0.5, scale);
    DivideShifted(x, -0.5, scale);
  }

  // ---- Encoding ----------------------------------------------------------------------------

  /** The frames at which a run starts. */
  function RunStarts(units: seq<int>): seq<nat> {
    if units == [] then []
    else
      var n := |units| - 1;
      RunStarts(units[..n]) + (if n == 0 || units[n] != units[n - 1] then [n] else [])
  }

  /** Frames at which runs start: increasing from 0, each with a unit unlike the one before. */
  ghost predicate GoodStarts(b: seq<nat>, units: seq<int>) {
    && b != [] && b[0] == 0
    && (forall k :: 0 <= k < |b| ==> b[k] < |units|)
    && (forall k, l :: 0 <= k < l < |b| ==> b[k] < b[l])
    && (forall k :: 0 < k < |b| ==> units[b[k]] != units[b[k] - 1])
  }

  lemma {:induction false} MoreStarts(c: seq<nat>, init: seq<int>, u: int)
    requires GoodStarts(c, init)
    ensures GoodStarts(c, init + [u])
    ensures u != init[|init| - 1] ==> GoodStarts(c + [|init|], init + [u])
  {}

  lemma {:induction false} RunStartsFacts(units: seq<int>)
    requires units != []
    ensures GoodStarts(RunStarts(units), units)
  {
    var n := |units| - 1;
    var init := units[..n];
    if n == 0 {
      assert RunStarts(init) == [];
    } else {
      RunStartsFacts(init);
      MoreStarts(RunStarts(init), init, units[n]);
      assert units == init + [units[n]] && init[n - 1] == units[n - 1];
    }
  }

  /** Within a run the unit does not change. */
  lemma {:induction false} RunIsConstant(units: seq<int>, k: nat, f: nat)
    requires k < |RunStarts(units)| && RunStarts(units)[k] <= f < Stop(units, k)
    ensures RunStarts(units)[k] < |units| && f < |units| && units[f] == units[RunStarts(units)[k]]
  {
    RunStartsFacts(units);
    var n := |units| - 1;
    if n > 0 {
      var init := units[..n];
      var b, c := RunStarts(units), RunStarts(init);
      RunStartsFacts(init);
      if k < |c| {
        if f < n {
          assert f < Stop(init, k);
          RunIsConstant(init, k, f);
        } else {
          assert k == |c| - 1 && b == c;
          RunIsConstant(init, k, n - 1);
        }
      }
    }
  }

  /** The frame behind the `k`-th run. */
  function Stop(units: seq<int>, k: nat): nat {
    if k + 1 < |RunStarts(units)| then RunStarts(units)[k + 1] else |units|
  }

  function ValidDuration(duration: Option<real>): Option<real> {
    if duration.Some? && duration.value > 0.0 then duration else None
  }

  /** Seconds per frame: from the audio's length when it is known, else the fixed hop. */
  function FrameLength(frames: nat, duration: Option<real>): real
    requires frames > 0
  {
    if ValidDuration(duration).Some? then duration.value / frames as real else HOP_SEC
  }

  /** The exact time of a frame boundary. */
  function At(frame: int, dt: real): real {
    frame as real * dt
  }

  function Tick(frame: nat, dt: real): real {
    Round(At(frame, dt), TIME_SCALE)
  }

  /** The emitted end of the whole stream. */
  function LastEnd(frames: nat, duration: Option<real>): real
    requires frames > 0
  {
    if ValidDuration(duration).Some? then Round(duration.value, END_SCALE) else Tick(frames, HOP_SEC)
  }

  /** The `k`-th run as a segment, in a stream that is said to end at `lastEnd`. */
  function SegmentAt(units: seq<int>, dt: real, lastEnd: real, k: nat): Segment
    requires k < |RunStarts(units)|
  {
    RunStartsInRange(units);
    var b := RunStarts(units);
    Segment(Tick(b[k], dt), if k + 1 < |b| then Tick(b[k + 1], dt) else lastEnd, units[b[k]])
  }

  lemma {:induction false} RunStartsInRange(units: seq<int>)
    ensures forall k :: 0 <= k < |RunStarts(units)| ==> RunStarts(units)[k] < |units|
  {
    if units != [] { RunStartsFacts(units); }
  }

  function Segments(units: seq<int>, dt: real, lastEnd: real): seq<Segment> {
    seq(|RunStarts(units)|, k requires 0 <= k < |RunStarts(units)| => SegmentAt(units, dt, lastEnd, k))
  }

  function Encode(units: seq<int>, duration: Option<real>): seq<Segment> {
    if units == [] then [] else Segments(units, FrameLength(|units|, duration), LastEnd(|units|, duration))
  }

  // ---- The loop ----------------------------------------------------------------------------

  /** A run of equal units, from frame `first` up to frame `stop`. */
  datatype Run = Run(first: nat, stop: nat, unit: int)

  /** The runs of `units` that a later run follows. */
  function ClosedRuns(units: seq<int>): seq<Run>
    requires units != []
  {
    RunStartsFacts(units);
    var b := RunStarts(units);
    seq(|b| - 1, k requires 0 <= k < |b| - 1 => Run(b[k], b[k + 1], units[b[k]]))
  }

  function LastStart(units: seq<int>): nat
    requires units != []
    ensures LastStart(units) < |units|
  {
    RunStartsFacts(units);
    RunStarts(units)[|RunStarts(units)| - 1]
  }

  function AllRuns(units: seq<int>): seq<Run>
    requires units != []
  {
    ClosedRuns(units) + [Run(LastStart(units), |units|, units[LastStart(units)])]
  }

  function TimedRun(run: Run, dt: real): Segment {
    Segment(Tick(run.first, dt), Tick(run.stop, dt), run.unit)
  }

  function Timed(runs: seq<Run>, dt: real): seq<Segment> {
    seq(|runs|, k requires 0 <= k < |runs| => TimedRun(runs[k], dt))
  }

  lemma {:induction false} NextFrame(units: seq<int>, next: seq<int>, u: int)
    requires units != [] && next == units + [u]
    ensures units[LastStart(units)] == units[|units| - 1]
    ensures u != units[|units| - 1] ==> LastStart(next) == |units| && ClosedRuns(next) == AllRuns(units)
    ensures u == units[|units| - 1] ==> LastStart(next) == LastStart(units) && ClosedRuns(next) == ClosedRuns(units)
  {
    RunStartsFacts(units);
    NextStarts(units, next, u);
    RunIsConstant(units, |RunStarts(units)| - 1, |units| - 1);
    if u != units[|units| - 1] { RunCloses(units, next, u); }
  }

  lemma {:induction false} RunCloses(units: seq<int>, next: seq<int>, u: int)
    requires units != [] && next == units + [u] && u != units[|units| - 1]
    ensures LastStart(next) == |units| && ClosedRuns(next) == AllRuns(units)
  {
    RunStartsFacts(units);
    NextStarts(units, next, u);
    var b, n := RunStarts(units), |RunStarts(units)|;
    var closed, all := ClosedRuns(next), AllRuns(units);
    assert RunStarts(next)[..n] == b && |closed| == |all| == n;
    forall k | 0 <= k < n ensures closed[k] == all[k] {
      assert next[b[k]] == units[b[k]];
    }
  }

  lemma {:induction false} NextStarts(units: seq<int>, next: seq<int>, u: int)
    requires units != [] && next == units + [u]
    ensures RunStarts(next) == RunStarts(units) + if u != units[|units| - 1] then [|units|] else []
  {
    assert next[..|units|] == units;
  }

  lemma {:induction false} FirstFrame(units: seq<int>)
    requires |units| == 1
    ensures ClosedRuns(units) == [] && LastStart(units) == 0
  {
    assert RunStarts(units) == RunStarts(units[..0]) + [0];
  }

  lemma {:induction false} OneMoreTimed(runs: seq<Run>, run: Run, dt: real)
    ensures Timed(runs + [run], dt) == Timed(runs, dt) + [TimedRun(run, dt)]
  {}

  lemma {:induction false} RunsAt(units: seq<int>, k: nat)
    requires units != [] && k < |RunStarts(units)|
    ensures |AllRuns(units)| == |RunStarts(units)| && RunStarts(units)[k] < |units|
    ensures AllRuns(units)[k] == Run(RunStarts(units)[k], Stop(units, k), units[RunStarts(units)[k]])
  {
    RunStartsFacts(units);
  }

  lemma {:induction false} SegmentIsTimed(units: seq<int>, dt: real, lastEnd: real, k: nat)
    requires units != [] && k < |RunStarts(units)| == |AllRuns(units)|
    ensures SegmentAt(units, dt, lastEnd, k) ==
      if k + 1 < |RunStarts(units)| then TimedRun(AllRuns(units)[k], dt)
      else TimedRun(AllRuns(units)[k], dt).(end := lastEnd)
  {
    RunsAt(units, k);
  }

  /** The timed runs, with the very last end replaced, are the segments of the stream. */
  lemma {:induction false} SegmentsAreAllRuns(units: seq<int>, dt: real, lastEnd: real)
    requires units != []
    ensures var s := Timed(AllRuns(units), dt);
      s != [] && Segments(units, dt, lastEnd) == s[|s| - 1 := s[|s| - 1].(end := lastEnd)]
  {
    var n := |RunStarts(units)|;
    RunStartsFacts(units);
    RunsAt(units, n - 1);
    forall k | 0 <= k < n ensures
      SegmentAt(units, dt, lastEnd, k) ==
      if k + 1 < n then TimedRun(AllRuns(units)[k], dt) else TimedRun(AllRuns(units)[k], dt).(end := lastEnd)
    {
      SegmentIsTimed(units, dt, lastEnd, k);
    }
  }

  method UnitsToSegments(units: seq<int>, duration: Option<real>) returns (segments: seq<Segment>)
    ensures segments == Encode(units, duration)
  {
    segments := [];
    if units == [] { return; }
    var valid := ValidDuration(duration);
    var dt := if valid.Some? then valid.value / |units| as real else HOP_SEC;
    var runStart := 0;
    FirstFrame(units[..1]);
    for i := 1 to |units| + 1
      invariant i <= |units| ==> segments == Timed(ClosedRuns(units[..i]), dt) && runStart == LastStart(units[..i])
      invariant i == |units| + 1 ==> segments == Timed(AllRuns(units), dt)
    {
      OneMoreTimed(ClosedRuns(units[..i]), Run(LastStart(units[..i]), i, units[LastStart(units[..i])]), dt);
      if i < |units| {
        NextFrame(units[..i], units[..i + 1], units[i]);
      } else {
        assert units[..i] == units;
      }
      if i == |units| || units[i] != units[runStart] {
        segments := segments + [Segment(Tick(runStart, dt), Tick(i, dt), units[runStart])];
        runStart := i;
      }
    }
    SegmentsAreAllRuns(units, dt, LastEnd(|units|, duration));
    if valid.Some? {
      var last := segments[|segments| - 1];
      segments := segments[|segments| - 1 := last.(end := Round(valid.value, END_SCALE))];
    }
  }

  // ---- What the segments say ---------------------------------------------------------------

  /** The frame boundary nearest to a time. */
  function FrameOf(t: real, dt: real): int
    requires dt > 0.0
  {
    Nearest(t / dt)
  }

  function Repeat(unit: int, n: int): seq<int> {
    if n <= 0 then [] else seq(n, _ => unit)
  }

  /** A segment's unit, once for every frame between its two times. */
  function Decoded(s: Segment, dt: real): seq<int>
    requires dt > 0.0
  {
    Repeat(s.unit, FrameOf(s.end, dt) - FrameOf(s.start, dt))
  }

  function Decode(segments: seq<Segment>, dt: real): seq<int>
    requires dt > 0.0
  {
    if segments == [] then []
    else
      Decode(segments[..|segments| - 1], dt) + Decoded(segments[|segments| - 1], dt)
  }

  /** A time closer to a frame boundary than half a frame belongs to that boundary. */
  lemma {:induction false} CloseTime(t: real, dt: real, i: int)
    requires dt > 0.0 && -dt / 2.0 < t - At(i, dt) < dt / 2.0
    ensures FrameOf(t, dt) == i
  {
    var y := t / dt;
    Quotient(t, dt);
    assert (y - i as real) * dt == t - At(i, dt) by { assert (y - i as real) * dt == y * dt - At(i, dt); }
    if y - i as real >= 0.5 { Scaled(0.5, y - i as real, dt); assert false; }
    if y - i as real <= -0.5 { Scaled(y - i as real, -0.5, dt); assert false; }
  }

  /** A frame as long as one tick falls on the grid exactly. */
  lemma {:induction false} ExactTick(i: nat)
    ensures Tick(i, TICK) == At(i, TICK)
  {
    assert At(i, TICK) * TIME_SCALE == i as real;
    NearestOfInteger(i);
  }

  lemma {:induction false} TickIsNear(i: nat, dt: real)
    requires dt >= TICK
    ensures -dt / 2.0 < Tick(i, dt) - At(i, dt) < dt / 2.0
    ensures -TICK / 2.0 <= Tick(i, dt) - At(i, dt) <= TICK / 2.0
  {
    RoundIsNear(At(i, dt), TIME_SCALE);
    if dt == TICK { ExactTick(i); }
  }

  /** The stream's end, rounded on its own, is also close to its frame boundary. */
  lemma {:induction false} LastEndIsNear(frames: nat, duration: Option<real>)
    requires frames > 0 && FrameLength(frames, duration) >= TICK
    ensures NearEnd(frames, FrameLength(frames, duration), LastEnd(frames, duration))
  {
    var dt := FrameLength(frames, duration);
    if ValidDuration(duration).Some? {
      Quotient(duration.value, frames as real);
      assert At(frames, dt) == duration.value;
      RoundIsNear(duration.value, END_SCALE);
    } else {
      TickIsNear(frames, dt);
    }
  }

  /** The stream's end is within half a frame of its last boundary. */
  predicate NearEnd(frames: nat, dt: real, lastEnd: real) {
    -dt / 2.0 < lastEnd - At(frames, dt) < dt / 2.0
  }

  /** Each segment lies on the frame boundaries of its run, up to less than half a frame. */
  lemma {:induction false} SegmentFrames(units: seq<int>, dt: real, lastEnd: real, k: nat)
    requires k < |RunStarts(units)| && units != [] && dt >= TICK && NearEnd(|units|, dt, lastEnd)
    ensures var s := SegmentAt(units, dt, lastEnd, k);
      FrameOf(s.start, dt) == RunStarts(units)[k] && FrameOf(s.end, dt) == Stop(units, k) && s.start < s.end
    ensures RunStarts(units)[k] < Stop(units, k)
  {
    RunStartsFacts(units);
    var i, j := RunStarts(units)[k], Stop(units, k);
    TickIsNear(i, dt);
    if j < |units| { TickIsNear(j, dt); }
    TimesApart(Tick(i, dt), SegmentAt(units, dt, lastEnd, k).end, i, j, dt);
  }

  lemma {:induction false} InOrder(s: real, t: real, p: real, q: real, dt: real)
    requires p + dt <= q && s - p < dt / 2.0 && -dt / 2.0 < t - q
    ensures s < t
  {}

  /** Times near two different frame boundaries are in order and each belong to their own. */
  lemma {:induction false} TimesApart(s: real, t: real, i: nat, j: nat, dt: real)
    requires i < j && dt > 0.0
    requires -dt / 2.0 < s - At(i, dt) < dt / 2.0 && -dt / 2.0 < t - At(j, dt) < dt / 2.0
    ensures s < t && FrameOf(s, dt) == i && FrameOf(t, dt) == j
  {
    FrameApart(i, j, dt);
    InOrder(s, t, At(i, dt), At(j, dt), dt);
    CloseTime(s, dt, i);
    CloseTime(t, dt, j);
  }

  lemma {:induction false} FrameApart(i: nat, j: nat, dt: real)
    requires i < j && dt > 0.0
    ensures At(j, dt) >= At(i, dt) + dt
  {
    assert At(j - i, dt) >= dt;
    assert At(j - i, dt) == At(j, dt) - At(i, dt);
  }

  lemma {:induction false} RepeatIsRun(units: seq<int>, k: nat)
    requires units != [] && k < |RunStarts(units)|
    ensures RunStarts(units)[k] < Stop(units, k) <= |units|
    ensures Repeat(units[RunStarts(units)[k]], Stop(units, k) - RunStarts(units)[k]) ==
      units[RunStarts(units)[k]..Stop(units, k)]
  {
    RunStartsFacts(units);
    forall f | RunStarts(units)[k] <= f < Stop(units, k)
      ensures units[f] == units[RunStarts(units)[k]]
    {
      RunIsConstant(units, k, f);
    }
  }

  /** Decoding one segment gives its run of units. */
  lemma {:induction false} DecodeOne(units: seq<int>, dt: real, lastEnd: real, k: nat)
    requires units != [] && k < |RunStarts(units)| && dt >= TICK && NearEnd(|units|, dt, lastEnd)
    ensures RunStarts(units)[k] < Stop(units, k) <= |units|
    ensures Decoded(SegmentAt(units, dt, lastEnd, k), dt) == units[RunStarts(units)[k]..Stop(units, k)]
  {
    SegmentFrames(units, dt, lastEnd, k);
    RepeatIsRun(units, k);
  }

  lemma {:induction false} DecodePrefix(units: seq<int>, dt: real, lastEnd: real, k: nat)
    requires units != [] && k <= |RunStarts(units)| && dt >= TICK && NearEnd(|units|, dt, lastEnd)
    ensures var stop := if k == 0 then 0 else Stop(units, k - 1);
      stop <= |units| && Decode(Segments(units, dt, lastEnd)[..k], dt) == units[..stop]
  {
    if k > 0 {
      DecodePrefix(units, dt, lastEnd, k - 1);
      DecodeOne(units, dt, lastEnd, k - 1);
      RunsAdjoin(units, k - 1);
      var e := Segments(units, dt, lastEnd);
      DecodeMore(e[..k - 1], SegmentAt(units, dt, lastEnd, k - 1), dt);
      assert e[..k] == e[..k - 1] + [SegmentAt(units, dt, lastEnd, k - 1)];
      var start, stop := RunStarts(units)[k - 1], Stop(units, k - 1);
      assert units[..stop] == units[..start] + units[start..stop];
    }
  }

  lemma {:induction false} DecodeMore(e: seq<Segment>, s: Segment, dt: real)
    requires dt > 0.0
    ensures Decode(e + [s], dt) == Decode(e, dt) + Decoded(s, dt)
  {
    assert (e + [s])[..|e|] == e;
  }

  /** A run starts where the one before it stops. */
  lemma {:induction false} RunsAdjoin(units: seq<int>, k: nat)
    requires units != [] && k < |RunStarts(units)|
    ensures RunStarts(units)[k] == if k == 0 then 0 else Stop(units, k - 1)
  {
    RunStartsFacts(units);
  }

  lemma {:induction false} DecodeSegments(units: seq<int>, dt: real, lastEnd: real)
    requires units != [] && dt >= TICK && NearEnd(|units|, dt, lastEnd)
    ensures Decode(Segments(units, dt, lastEnd), dt) == units
  {
    var n := |RunStarts(units)|;
    RunStartsFacts(units);
    DecodePrefix(units, dt, lastEnd, n);
    assert Segments(units, dt, lastEnd)[..n] == Segments(units, dt, lastEnd) && units[..|units|] == units;
  }

  /** The original units come back from the emitted times, as soon as a frame is at least one tick long. */
  lemma {:induction false} DecodeInvertsEncode(units: seq<int>, duration: Option<real>)
    requires units != [] && FrameLength(|units|, duration) >= TICK
    ensures Decode(Encode(units, duration), FrameLength(|units|, duration)) == units
  {
    LastEndIsNear(|units|, duration);
    DecodeSegments(units, FrameLength(|units|, duration), LastEnd(|units|, duration));
  }

  /** From 0 without a gap, each of positive length, neighbours with different units. */
  ghost predicate Tiles(e: seq<Segment>) {
    && (e != [] ==> e[0].start == 0.0)
    && (forall k :: 0 <= k < |e| ==> e[k].start < e[k].end)
    && (forall k :: 0 <= k < |e| - 1 ==> e[k].end == e[k + 1].start && e[k].unit != e[k + 1].unit)
  }

  lemma {:induction false} SegmentsTile(units: seq<int>, dt: real, lastEnd: real)
    requires units != [] && dt >= TICK && NearEnd(|units|, dt, lastEnd)
    ensures Tiles(Segments(units, dt, lastEnd))
  {
    RunStartsFacts(units);
    var b, e := RunStarts(units), Segments(units, dt, lastEnd);
    TickOfZero(dt);
    forall k | 0 <= k < |e| ensures e[k].start < e[k].end { SegmentFrames(units, dt, lastEnd, k); }
    forall k | 0 <= k < |e| - 1 ensures e[k].unit != e[k + 1].unit { RunIsConstant(units, k, b[k + 1] - 1); }
  }

  lemma {:induction false} TickOfZero(dt: real)
    ensures Tick(0, dt) == 0.0
  {
    assert At(0, dt) == 0.0;
    NearestOfInteger(0);
  }

  /** The segments of a stream tile it, up to the end of the audio when that is known. */
  lemma {:induction false} EncodingTiles(units: seq<int>, duration: Option<real>)
    requires units != [] && FrameLength(|units|, duration) >= TICK
    ensures var e := Encode(units, duration);
      Tiles(e) && e != [] && e[|e| - 1].end == LastEnd(|units|, duration)
  {
    LastEndIsNear(|units|, duration);
    SegmentsTile(units, FrameLength(|units|, duration), LastEnd(|units|, duration));
    EndOfSegments(units, FrameLength(|units|, duration), LastEnd(|units|, duration));
  }

  lemma {:induction false} EndOfSegments(units: seq<int>, dt: real, lastEnd: real)
    requires units != []
    ensures var e := Segments(units, dt, lastEnd); e != [] && e[|e| - 1].end == lastEnd
  {
    RunStartsFacts(units);
  }

  // ---- Shorter frames ----------------------------------------------------------------------

  /** All segments of every stream with this frame length have positive length. */
  ghost predicate AlwaysPositive(dt: real) {
    forall units: seq<int>, duration: Option<real> :: units != [] && FrameLength(|units|, duration) == dt ==>
      forall k :: 0 <= k < |Encode(units, duration)| ==>
        Encode(units, duration)[k].start < Encode(units, duration)[k].end
  }

  /** The tick that a frame boundary is rounded to. */
  function Grid(i: nat, dt: real): int {
    Steps(At(i, dt), TIME_SCALE)
  }

  /** Where two ticks fewer than frames have passed, two neighbouring inner boundaries have met before. */
  lemma {:induction false} MetBefore(dt: real, n: nat) returns (i: nat)
    requires dt > 0.0 && n > 0 && Grid(n, dt) < n - 1
    ensures i > 0 && Grid(i, dt) == Grid(i + 1, dt)
  {
    i := 1;
    GridMonotone(n - 1, dt);
    if n == 1 {
      NearestOfInteger(0);
    } else if Grid(n - 1, dt) == Grid(n, dt) {
      i := n - 1;
    } else {
      i := MetBefore(dt, n - 1);
    }
  }

  lemma {:induction false} GridMonotone(i: nat, dt: real)
    requires dt > 0.0
    ensures Grid(i, dt) <= Grid(i + 1, dt)
  {
    FrameApart(i, i + 1, dt);
    Scaled(At(i, dt), At(i + 1, dt), TIME_SCALE);
    NearestMonotone(At(i, dt) * TIME_SCALE, At(i + 1, dt) * TIME_SCALE);
  }

  /** Some whole number of frames loses more than two ticks. */
  lemma {:induction false} FallsBehind(c: real) returns (n: nat)
    requires 0.0 < c < 1.0
    ensures n > 0 && n as real * c < n as real - 2.0
  {
    var q := 2.0 / (1.0 - c);
    Quotient(2.0, 1.0 - c);
    n := Above(q);
    LosesTwo(c, q, n as real);
  }

  lemma {:induction false} Above(q: real) returns (n: nat)
    ensures q < n as real
  {
    n := if q < 0.0 then 0 else q.Floor + 1;
  }

  lemma {:induction false} LosesTwo(c: real, q: real, n: real)
    requires 0.0 < c < 1.0 && q * (1.0 - c) == 2.0 && q < n
    ensures n * c < n - 2.0
  {
    Product(q, n, 1.0 - c);
    Distribute(1.0, c, n);
  }

  lemma {:induction false} Product(a: real, b: real, c: real)
    requires a < b && c > 0.0
    ensures a * c < b * c
  {}

  lemma {:induction false} Distribute(a: real, b: real, c: real)
    ensures c * (a - b) == c * a - c * b && (a - b) * c == c * (a - b)
  {}

  /** Frames shorter than a tick fall behind: at some frame the ticks counted are fewer by two. */
  lemma {:induction false} TicksFallBehind(dt: real) returns (n: nat)
    requires 0.0 < dt < TICK
    ensures n > 0 && Grid(n, dt) < n - 1
  {
    n := FallsBehind(dt * TIME_SCALE);
    assert At(n, dt) * TIME_SCALE == n as real * (dt * TIME_SCALE);
    NearestIsNear(At(n, dt) * TIME_SCALE);
  }

  /** So two neighbouring boundaries inside some stream meet. */
  lemma {:induction false} BoundariesMeet(dt: real) returns (i: nat)
    requires 0.0 < dt < TICK
    ensures i > 0 && Grid(i, dt) == Grid(i + 1, dt)
  {
    var n := TicksFallBehind(dt);
    i := MetBefore(dt, n);
  }

  lemma {:induction false} TickIsGrid(i: nat, dt: real)
    ensures Tick(i, dt) == Grid(i, dt) as real / TIME_SCALE
  {}

  function Alternating(n: nat): seq<int> {
    seq(n, i => i % 2)
  }

  lemma {:induction false} AlternatingStarts(n: nat)
    ensures RunStarts(Alternating(n)) == seq(n, i => i)
  {
    if n > 0 {
      AlternatingStarts(n - 1);
      assert Alternating(n)[..n - 1] == Alternating(n - 1);
    }
  }

  /** The exact condition: positive segments for every stream if and only if a frame is at least one tick. */
  lemma {:induction false} PositiveIffTick(dt: real)
    requires dt > 0.0
    ensures AlwaysPositive(dt) <==> dt >= TICK
  {
    if dt >= TICK {
      forall units: seq<int>, duration: Option<real> | units != [] && FrameLength(|units|, duration) == dt
        ensures forall k :: 0 <= k < |Encode(units, duration)| ==>
          Encode(units, duration)[k].start < Encode(units, duration)[k].end
      {
        EncodingTiles(units, duration);
      }
    } else {
      var i := BoundariesMeet(dt);
      var n := i + 2;
      var units, duration := Alternating(n), Some(At(n, dt));
      AlternatingStarts(n);
      FrameLengthOf(n, dt);
      var e := Encode(units, duration);
      assert e[i] == SegmentAt(units, dt, LastEnd(n, duration), i);
      TickIsGrid(i, dt);
      TickIsGrid(i + 1, dt);
      assert e[i].start == e[i].end;
    }
  }

  lemma {:induction false} FrameLengthOf(n: nat, dt: real)
    requires n > 0 && dt > 0.0
    ensures FrameLength(n, Some(At(n, dt))) == dt
  {
    Quotient(At(n, dt), n as real);
    assert At(n, dt) > 0.0;
    SameMultiple(At(n, dt) / n as real, dt, n as real);
  }

  // ---- The times -------------------------------------------------------------------------

  /** The time is `steps` of the `scale`-ths of a second. */
  predicate OnGrid(time: real, scale: real, steps: int) {
    time * scale == steps as real
  }

  /** The time has four decimal places and is as near to `exact` as that allows. */
  ghost predicate ToFourPlaces(time: real, exact: real) {
    -0.00005 <= time - exact <= 0.00005 && exists m :: OnGrid(time, 10_000.0, m)
  }

  ghost predicate ToSixPlaces(time: real, exact: real) {
    -0.0000005 <= time - exact <= 0.0000005 && exists m :: OnGrid(time, 1_000_000.0, m)
  }

  lemma {:induction false} RoundOnGrid(x: real, scale: real)
    requires scale > 0.0
    ensures OnGrid(Round(x, scale), scale, Steps(x, scale))
  {
    Quotient(Steps(x, scale) as real, scale);
  }

  lemma {:induction false} TickToFourPlaces(frame: nat, dt: real)
    ensures ToFourPlaces(Tick(frame, dt), At(frame, dt))
  {
    RoundIsNear(At(frame, dt), TIME_SCALE);
    RoundOnGrid(At(frame, dt), TIME_SCALE);
  }

  lemma {:induction false} EndToSixPlaces(duration: real)
    ensures ToSixPlaces(Round(duration, END_SCALE), duration)
  {
    RoundIsNear(duration, END_SCALE);
    RoundOnGrid(duration, END_SCALE);
  }

  /** The length of the audio is known: positive. */
  predicate Known(duration: Option<real>) {
    duration.Some? && duration.value > 0.0
  }

  /** A frame lasts its share of a known length, else twenty milliseconds. */
  lemma {:induction false} FrameShare(frames: nat, duration: Option<real>)
    requires frames > 0
    ensures FrameLength(frames, duration) == if Known(duration) then duration.value / frames as real else 0.02
  {}

  /**
    The segments' times are those of their frames, to four places; the last end is the known length
    itself, to six.
  */
  lemma {:induction false} TimesAreFrames(units: seq<int>, duration: Option<real>, k: nat)
    requires k < |Encode(units, duration)|
    ensures var e, b := Encode(units, duration), RunStarts(units);
      && units != [] && |e| == |b| && b[k] < |units| && e[k].unit == units[b[k]]
      && var dt := FrameLength(|units|, duration);
      && ToFourPlaces(e[k].start, At(b[k], dt))
      && (k + 1 < |e| ==> ToFourPlaces(e[k].end, At(b[k + 1], dt)))
      && (k + 1 == |e| ==>
            if Known(duration) then ToSixPlaces(e[k].end, duration.value) else ToFourPlaces(e[k].end, At(|units|, dt)))
  {
    RunStartsInRange(units);
    var b, dt := RunStarts(units), FrameLength(|units|, duration);
    TickToFourPlaces(b[k], dt);
    if k + 1 < |b| {
      TickToFourPlaces(b[k + 1], dt);
    } else if Known(duration) {
      EndToSixPlaces(duration.value);
    } else {
      TickToFourPlaces(|units|, dt);
    }
  }
}
