/**
 * The five speed zones and the share of distance covered in each
 * (utils/physics.py lines 34-49).
 */
module Zones {
  import opened Outcomes
  import opened Series

  datatype Zone = Walking | Jogging | Running | HSR | Sprinting

  /** Inclusive lower bound of a zone in km/h. */
  function Low(z: Zone): real {
    match z
    case Walking => 0.0
    case Jogging => 7.0
    case Running => 15.0
    case HSR => 20.0
    case Sprinting => 25.0
  }

  /** Exclusive upper bound of a zone in km/h. */
  function High(z: Zone): real {
    match z
    case Walking => 7.0
    case Jogging => 15.0
    case Running => 20.0
    case HSR => 25.0
    case Sprinting => 100.0
  }

  /** The mask `(speed >= low) & (speed < high)`; a missing speed compares false. */
  predicate InZone(v: Sample, z: Zone) {
    v.Some? && Low(z) <= v.value < High(z)
  }

  /** A speed some zone counts: present and in [0, 100). */
  predicate Classified(v: Sample) {
    v.Some? && 0.0 <= v.value < 100.0
  }

  /**
   * The zone a speed sample falls in: none for a missing speed or one outside
   * [0, 100), and otherwise the single zone whose interval holds it.
   */
  function ZoneOf(v: Sample): (r: Option<Zone>)
    ensures r.Some? <==> Classified(v)
    ensures r.Some? ==> InZone(v, r.value)
    ensures forall z :: InZone(v, z) ==> r == Some(z)
  {
    if !Classified(v) then None
    else if v.value < 7.0 then Some(Walking)
    else if v.value < 15.0 then Some(Jogging)
    else if v.value < 20.0 then Some(Running)
    else if v.value < 25.0 then Some(HSR)
    else Some(Sprinting)
  }

  /** Distance covered in frames whose speed lies in zone `z`: `dist[mask].sum()`. */
  function ZoneDistance(speed: seq<Sample>, dist: seq<Sample>, z: Zone): real
    requires |speed| == |dist|
    decreases |speed|
  {
    if |speed| == 0 then 0.0
    else
      ZoneDistance(speed[..|speed| - 1], dist[..|dist| - 1], z)
        + (if InZone(speed[|speed| - 1], z) then ValueOr0(dist[|dist| - 1]) else 0.0)
  }

  /** Distance covered in frames some zone counts. */
  function ClassifiedDistance(speed: seq<Sample>, dist: seq<Sample>): real
    requires |speed| == |dist|
    decreases |speed|
  {
    if |speed| == 0 then 0.0
    else
      ClassifiedDistance(speed[..|speed| - 1], dist[..|dist| - 1])
        + (if Classified(speed[|speed| - 1]) then ValueOr0(dist[|dist| - 1]) else 0.0)
  }

  /** The five zone distances add up to the classified distance: the zones partition [0, 100). */
  lemma {:induction false} ZoneDistancesPartition(speed: seq<Sample>, dist: seq<Sample>)
    requires |speed| == |dist|
    ensures ZoneDistance(speed, dist, Walking) + ZoneDistance(speed, dist, Jogging)
      + ZoneDistance(speed, dist, Running) + ZoneDistance(speed, dist, HSR)
      + ZoneDistance(speed, dist, Sprinting) == ClassifiedDistance(speed, dist)
    decreases |speed|
  {
    if |speed| > 0 {
      ZoneDistancesPartition(speed[..|speed| - 1], dist[..|dist| - 1]);
      var v := speed[|speed| - 1];
      var zone := ZoneOf(v);
    }
  }

  /** Each zone distance of a nonnegative distance series is nonnegative. */
  lemma {:induction false} ZoneDistanceNonnegative(speed: seq<Sample>, dist: seq<Sample>, z: Zone)
    requires |speed| == |dist|
    requires forall i :: 0 <= i < |dist| ==> ValueOr0(dist[i]) >= 0.0
    ensures ZoneDistance(speed, dist, z) >= 0.0
    decreases |speed|
  {
    if |speed| > 0 {
      ZoneDistanceNonnegative(speed[..|speed| - 1], dist[..|dist| - 1], z);
    }
  }

  /**
   * For a nonnegative distance series the classified distance is at most the
   * total, and equals it exactly when every frame with nonzero distance has
   * its speed in [0, 100).
   */
  lemma {:induction false} ClassifiedDistanceBound(speed: seq<Sample>, dist: seq<Sample>)
    requires |speed| == |dist|
    requires forall i :: 0 <= i < |dist| ==> ValueOr0(dist[i]) >= 0.0
    ensures 0.0 <= ClassifiedDistance(speed, dist) <= Sum(dist)
    ensures ClassifiedDistance(speed, dist) == Sum(dist) <==>
      forall i :: 0 <= i < |dist| && ValueOr0(dist[i]) != 0.0 ==> Classified(speed[i])
    decreases |speed|
  {
    if |speed| > 0 {
      var n := |speed| - 1;
      var s0, d0 := speed[..n], dist[..n];
      assert forall i :: 0 <= i < n ==> s0[i] == speed[i] && d0[i] == dist[i];
      ClassifiedDistanceBound(s0, d0);
      assert dist[..|dist| - 1] == d0;
    }
  }

  /** A value for each zone, in the order the source lists them. */
  datatype ZoneShares = ZoneShares(walking: real, jogging: real, running: real, hsr: real, sprinting: real) {
    function Of(z: Zone): real {
      match z
      case Walking => walking
      case Jogging => jogging
      case Running => running
      case HSR => hsr
      case Sprinting => sprinting
    }

    function Total(): real {
      walking + jogging + running + hsr + sprinting
    }
  }

  /** `part` as a percentage of `total`. */
  function Share(part: real, total: real): (r: real)
    requires total != 0.0
    ensures r * total == part * 100.0
  {
    var q := part / total;
    assert q * total == part;
    q * 100.0
  }

  lemma ShareAdd(a: real, b: real, total: real)
    requires total != 0.0
    ensures Share(a, total) + Share(b, total) == Share(a + b, total)
  {
    var sa, sb, sab := Share(a, total), Share(b, total), Share(a + b, total);
    assert (sa + sb) * total == sab * total;
  }

  lemma ShareBounds(part: real, total: real)
    requires total > 0.0
    ensures part >= 0.0 ==> Share(part, total) >= 0.0
    ensures part <= total ==> Share(part, total) <= 100.0
    ensures Share(part, total) == 100.0 <==> part == total
  {
    var r := Share(part, total);
    assert r * total == part * 100.0;
    assert r < 0.0 ==> r * total < 0.0;
    assert r > 100.0 ==> r * total > 100.0 * total;
    assert r == 100.0 ==> 100.0 * total == part * 100.0;
  }

  /**
   * Percentage of the total distance covered in each zone, before rounding;
   * every zone reports 0 when the total distance is 0.
   */
  function Percentages(speed: seq<Sample>, dist: seq<Sample>): (p: ZoneShares)
    requires |speed| == |dist|
    ensures Sum(dist) == 0.0 ==> forall z :: p.Of(z) == 0.0
    ensures Sum(dist) != 0.0 ==> forall z :: p.Of(z) == Share(ZoneDistance(speed, dist, z), Sum(dist))
  {
    var total := Sum(dist);
    if total == 0.0 then ZoneShares(0.0, 0.0, 0.0, 0.0, 0.0)
    else
      var p := ZoneShares(
        Share(ZoneDistance(speed, dist, Walking), total),
        Share(ZoneDistance(speed, dist, Jogging), total),
        Share(ZoneDistance(speed, dist, Running), total),
        Share(ZoneDistance(speed, dist, HSR), total),
        Share(ZoneDistance(speed, dist, Sprinting), total));
      p
  }

  /**
   * For a nonnegative distance series the zone percentages are nonnegative
   * and add up to at most 100, with exactly 100 when the total is positive
   * and every frame with nonzero distance has its speed in [0, 100).
   */
  lemma PercentagesBounded(speed: seq<Sample>, dist: seq<Sample>)
    requires |speed| == |dist|
    requires forall i :: 0 <= i < |dist| ==> ValueOr0(dist[i]) >= 0.0
    ensures forall z :: Percentages(speed, dist).Of(z) >= 0.0
    ensures Percentages(speed, dist).Total() <= 100.0
    ensures Sum(dist) > 0.0 ==>
      (Percentages(speed, dist).Total() == 100.0 <==>
       forall i :: 0 <= i < |dist| && ValueOr0(dist[i]) != 0.0 ==> Classified(speed[i]))
  {
    var total := Sum(dist);
    ClassifiedDistanceBound(speed, dist);
    if total != 0.0 {
      var w, j, r, h, s := ZoneDistance(speed, dist, Walking), ZoneDistance(speed, dist, Jogging),
        ZoneDistance(speed, dist, Running), ZoneDistance(speed, dist, HSR), ZoneDistance(speed, dist, Sprinting);
      forall z ensures ZoneDistance(speed, dist, z) >= 0.0 {
        ZoneDistanceNonnegative(speed, dist, z);
      }
      forall z ensures Share(ZoneDistance(speed, dist, z), total) >= 0.0 {
        ShareBounds(ZoneDistance(speed, dist, z), total);
      }
      ZoneDistancesPartition(speed, dist);
      ShareAdd(w, j, total);
      ShareAdd(w + j, r, total);
      ShareAdd(w + j + r, h, total);
      ShareAdd(w + j + r + h, s, total);
      ShareBounds(ClassifiedDistance(speed, dist), total);
    }
  }

  /** A player who covered no distance (a stationary track) shows 0 in every zone. */
  lemma NoDistanceNoShares(speed: seq<Sample>, dist: seq<Sample>)
    requires |speed| == |dist|
    requires forall i :: 0 <= i < |dist| ==> ValueOr0(dist[i]) == 0.0
    ensures forall z :: Percentages(speed, dist).Of(z) == 0.0
  {
    SumZeroIff(dist);
  }
}
