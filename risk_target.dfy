/**
 * The synthetic training target of the risk model: a weighted sum of three
 * normalised feature columns (speed, braking, traffic code), clipped to [0, 1].
 */
module RiskTarget {
  import opened Numeric

  /** Feature columns in the order the scaler sees them. */
  const Features: seq<string> :=
    ["speed", "braking", "acceleration", "weather_encoded", "road_encoded", "traffic_encoded"]
  const SpeedColumn: nat := 0
  const BrakingColumn: nat := 1
  const TrafficColumn: nat := 5

  /** `0.5*speed + 0.3*braking + 0.2*traffic` on one scaled feature row, before clipping. */
  function WeightedSum(x: seq<real>): real
    requires |x| == |Features|
  {
    0.5 * x[SpeedColumn] + 0.3 * x[BrakingColumn] + 0.2 * x[TrafficColumn]
  }

  predicate InUnitRange(x: seq<real>)
  {
    forall k :: 0 <= k < |x| ==> 0.0 <= x[k] <= 1.0
  }

  /**
   * The target of one row: always in [0, 1]; on a row the scaler has put into
   * [0, 1] the clip changes nothing and the target is the weighted sum itself.
   */
  function SyntheticTarget(x: seq<real>): (y: real)
    requires |x| == |Features|
    ensures 0.0 <= y <= 1.0
    ensures InUnitRange(x) ==> y == WeightedSum(x)
  {
    Clamp(WeightedSum(x), 0.0, 1.0)
  }

  /** The target column: one value per scaled row, each in [0, 1]. */
  function SyntheticTargets(rows: seq<seq<real>>): (ys: seq<real>)
    requires forall i :: 0 <= i < |rows| ==> |rows[i]| == |Features|
    ensures |ys| == |rows|
    ensures forall i :: 0 <= i < |rows| ==> 0.0 <= ys[i] <= 1.0 && ys[i] == SyntheticTarget(rows[i])
  {
    if rows == [] then [] else [SyntheticTarget(rows[0])] + SyntheticTargets(rows[1..])
  }

  /** The target only depends on the speed, braking and traffic columns. */
  lemma TargetIgnoresOtherColumns(x: seq<real>, x': seq<real>)
    requires |x| == |x'| == |Features|
    requires x[SpeedColumn] == x'[SpeedColumn] && x[BrakingColumn] == x'[BrakingColumn]
    requires x[TrafficColumn] == x'[TrafficColumn]
    ensures SyntheticTarget(x) == SyntheticTarget(x')
  {
  }
}
