/**
 * Per-frame numeric series and the pandas operations the physics code applies
 * to them. A sample is `None` where pandas holds NaN.
 */
module Series {
  import opened Outcomes

  type Sample = Option<real>

  /** Sampling interval of the tracking data in seconds (25 Hz). */
  const FrameInterval: real := 0.04
  /** Metres per second to kilometres per hour. */
  const MsToKmh: real := 3.6

  /** The value a present sample holds, 0 for a missing one (what a NaN-skipping sum adds). */
  function ValueOr0(s: Sample): real {
    if s.Some? then s.value else 0.0
  }

  /** A series with every sample present. */
  function Present(s: seq<real>): (r: seq<Sample>)
    ensures |r| == |s|
    ensures forall i :: 0 <= i < |s| ==> r[i] == Some(s[i])
  {
    seq(|s|, i requires 0 <= i < |s| => Some(s[i]))
  }

  /** pandas `fillna(fill)`: present samples kept, missing ones replaced. */
  function FillMissing(s: seq<Sample>, fill: real): (r: seq<real>)
    ensures |r| == |s|
    ensures forall i :: 0 <= i < |s| ==> r[i] == (if s[i].Some? then s[i].value else fill)
  {
    seq(|s|, i requires 0 <= i < |s| => if s[i].Some? then s[i].value else fill)
  }

  /** The conditions the model assumes of the square root it is given. */
  ghost predicate SqrtLike(sqrt: real -> real) {
    && sqrt(0.0) == 0.0
    && forall v: real :: v >= 0.0 ==> sqrt(v) >= 0.0
  }

  /** pandas `diff()` at frame `i`: missing at frame 0 and wherever either sample is missing. */
  function Diff(s: seq<Sample>, i: nat): Sample
    requires i < |s|
  {
    if i == 0 || s[i].None? || s[i - 1].None? then None
    else Some(s[i].value - s[i - 1].value)
  }

  /** Euclidean length of a step with components `dx`, `dy`. */
  function Hypot(dx: real, dy: real, sqrt: real -> real): (h: real)
    requires SqrtLike(sqrt)
    ensures h >= 0.0
  {
    assert dx * dx >= 0.0 && dy * dy >= 0.0;
    sqrt(dx * dx + dy * dy)
  }

  /** One entry of `sqrt(x.diff()**2 + y.diff()**2).fillna(0)`. */
  function StepAt(xs: seq<Sample>, ys: seq<Sample>, i: nat, sqrt: real -> real): real
    requires |xs| == |ys| && i < |xs| && SqrtLike(sqrt)
  {
    var dx := Diff(xs, i);
    var dy := Diff(ys, i);
    if dx.Some? && dy.Some? then Hypot(dx.value, dy.value, sqrt) else 0.0
  }

  /**
   * Step distance of a track: one entry per frame, 0 at the first frame and
   * wherever a coordinate of either endpoint is missing, otherwise the
   * Euclidean length of the step from the previous frame.
   */
  function StepDistance(xs: seq<Sample>, ys: seq<Sample>, sqrt: real -> real): (d: seq<real>)
    requires |xs| == |ys| && SqrtLike(sqrt)
    ensures |d| == |xs|
    ensures |d| > 0 ==> d[0] == 0.0
    ensures forall i :: 0 <= i < |d| ==> d[i] >= 0.0
    ensures forall i :: 0 < i < |d| && (xs[i].None? || xs[i - 1].None? || ys[i].None? || ys[i - 1].None?) ==>
      d[i] == 0.0
    ensures forall i :: 0 < i < |d| && xs[i].Some? && xs[i - 1].Some? && ys[i].Some? && ys[i - 1].Some? ==>
      d[i] == Hypot(xs[i].value - xs[i - 1].value, ys[i].value - ys[i - 1].value, sqrt)
  {
    var d := seq(|xs|, i requires 0 <= i < |xs| => StepAt(xs, ys, i, sqrt));
    assert forall i :: 0 <= i < |d| ==> d[i] == StepAt(xs, ys, i, sqrt);
    d
  }

  /** A player who never moves covers no distance, even with gaps in the track. */
  lemma StationaryStepDistance(xs: seq<Sample>, ys: seq<Sample>, x: real, y: real, sqrt: real -> real)
    requires |xs| == |ys| && SqrtLike(sqrt)
    requires forall i :: 0 <= i < |xs| ==> xs[i] in {None, Some(x)} && ys[i] in {None, Some(y)}
    ensures forall i :: 0 <= i < |xs| ==> StepDistance(xs, ys, sqrt)[i] == 0.0
  {
    var d := StepDistance(xs, ys, sqrt);
    forall i | 0 < i < |xs| && xs[i].Some? && xs[i - 1].Some? && ys[i].Some? && ys[i - 1].Some?
      ensures d[i] == 0.0
    {
      assert xs[i].value - xs[i - 1].value == 0.0 && ys[i].value - ys[i - 1].value == 0.0;
    }
  }

  /** Raw speed in km/h: the step length per frame interval, converted from m/s. */
  function RawSpeed(d: seq<real>): (v: seq<real>)
    ensures |v| == |d|
    ensures forall i :: 0 <= i < |d| ==> v[i] == 90.0 * d[i]
    ensures forall i :: 0 <= i < |d| ==> (v[i] >= 0.0 <==> d[i] >= 0.0)
  {
    seq(|d|, i requires 0 <= i < |d| => d[i] / FrameInterval * MsToKmh)
  }

  /** pandas `clip(upper=bound)`. */
  function Clip(s: seq<real>, bound: real): (r: seq<real>)
    ensures |r| == |s|
    ensures forall i :: 0 <= i < |s| ==> r[i] <= bound
    ensures forall i :: 0 <= i < |s| && s[i] <= bound ==> r[i] == s[i]
    ensures forall i :: 0 <= i < |s| && s[i] > bound ==> r[i] == bound
  {
    seq(|s|, i requires 0 <= i < |s| => if s[i] <= bound then s[i] else bound)
  }

  /** Clipping twice against the same bound is clipping once. */
  lemma ClipIdempotent(s: seq<real>, bound: real)
    ensures Clip(Clip(s, bound), bound) == Clip(s, bound)
  {
  }

  /** A nonnegative series clipped against a nonnegative bound stays nonnegative. */
  lemma ClipNonnegative(s: seq<real>, bound: real)
    requires bound >= 0.0
    requires forall i :: 0 <= i < |s| ==> s[i] >= 0.0
    ensures forall i :: 0 <= i < |s| ==> Clip(s, bound)[i] >= 0.0
  {
  }

  /** pandas `sum()`: missing samples are skipped, so an all-missing series sums to 0. */
  function Sum(s: seq<Sample>): (t: real)
    ensures (forall i :: 0 <= i < |s| ==> ValueOr0(s[i]) >= 0.0) ==> t >= 0.0
    decreases |s|
  {
    if |s| == 0 then 0.0 else Sum(s[..|s| - 1]) + ValueOr0(s[|s| - 1])
  }

  /** A sum of nonnegative samples is 0 exactly when every sample is missing or 0. */
  lemma {:induction false} SumZeroIff(s: seq<Sample>)
    requires forall i :: 0 <= i < |s| ==> ValueOr0(s[i]) >= 0.0
    ensures Sum(s) == 0.0 <==> forall i :: 0 <= i < |s| ==> ValueOr0(s[i]) == 0.0
    decreases |s|
  {
    if |s| > 0 {
      var init := s[..|s| - 1];
      assert forall i :: 0 <= i < |init| ==> init[i] == s[i];
      SumZeroIff(init);
    }
  }

  /** pandas `max()`: the largest present sample, `None` when no sample is present. */
  function Max(s: seq<Sample>): (m: Option<real>)
    ensures m.None? <==> forall i :: 0 <= i < |s| ==> s[i].None?
    ensures m.Some? ==> exists i :: 0 <= i < |s| && s[i] == m
    ensures m.Some? ==> forall i :: 0 <= i < |s| && s[i].Some? ==> s[i].value <= m.value
    decreases |s|
  {
    if |s| == 0 then None
    else
      var init := s[..|s| - 1];
      var last := s[|s| - 1];
      assert forall i :: 0 <= i < |init| ==> init[i] == s[i];
      match (Max(init), last)
      case (None, _) => last
      case (Some(a), None) => Some(a)
      case (Some(a), Some(b)) => if b > a then Some(b) else Some(a)
  }

  /** Number of present samples strictly above `threshold` (pandas `len(s[s > threshold])`). */
  function CountAbove(s: seq<Sample>, threshold: real): (n: nat)
    ensures n <= |s|
    ensures n == 0 <==> forall i :: 0 <= i < |s| && s[i].Some? ==> s[i].value <= threshold
    ensures n == |s| <==> forall i :: 0 <= i < |s| ==> s[i].Some? && s[i].value > threshold
    decreases |s|
  {
    if |s| == 0 then 0
    else
      var init := s[..|s| - 1];
      assert forall i :: 0 <= i < |init| ==> init[i] == s[i];
      var last := s[|s| - 1];
      CountAbove(init, threshold) + (if last.Some? && last.value > threshold then 1 else 0)
  }

  /** The frames whose sample is present and strictly above `threshold`. */
  function FastFrames(s: seq<Sample>, threshold: real): set<int> {
    set i | 0 <= i < |s| && s[i].Some? && s[i].value > threshold
  }

  /** The count is the number of frames whose sample is present and above the threshold. */
  lemma {:induction false} CountAboveIsFastFrames(s: seq<Sample>, threshold: real)
    ensures CountAbove(s, threshold) == |FastFrames(s, threshold)|
    decreases |s|
  {
    if |s| > 0 {
      var init, last := s[..|s| - 1], |s| - 1;
      CountAboveIsFastFrames(init, threshold);
      var here: set<int> := if s[last].Some? && s[last].value > threshold then {last} else {};
      assert FastFrames(s, threshold) == FastFrames(init, threshold) + here by {
        assert forall i :: 0 <= i < |init| ==> init[i] == s[i];
      }
      assert last !in FastFrames(init, threshold);
    }
  }
}
