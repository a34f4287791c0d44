/**
 * Event detection over the telemetry table (`generate_csv`, first loop).
 * Each row gets an `event` text: the labels of the rules that fired, joined
 * with ", " in the fixed order brake, speed, turn, or "normal" when none fired.
 */
module EventDetector {
  import opened Wrappers
  import opened Text

  const HarshBrakeThreshold: real := 0.7   // braking strictly above this is harsh
  const OverspeedThreshold: real := 100.0  // km/h strictly above this is overspeed
  const SharpTurnThreshold: real := 5.0    // angular velocity strictly above this is a sharp turn

  const HarshBrake: string := "harsh_brake"
  const Overspeed: string := "overspeed"
  const SharpTurn: string := "sharp_turn"
  const Normal: string := "normal"
  const EventSeparator: string := ", "

  /**
   * One row of the telemetry table. `angularVelocity` is only consulted when the
   * table has an `angular_velocity` column; `event` is the column the loop writes.
   */
  datatype TelemetryRow = TelemetryRow(
    timestamp: string, vehicleId: string, driverName: string, policyNumber: string,
    gpsLat: real, gpsLon: real,
    speed: real, braking: real, acceleration: real,
    weather: string, roadType: string,
    stressLevel: real, heartRate: real, gsr: real, fatigue: real,
    angularVelocity: real,
    event: Option<string>)

  /** Position of a label in the evaluation order brake, speed, turn. */
  function Rank(tag: string): nat
  {
    if tag == HarshBrake then 0 else if tag == Overspeed then 1 else 2
  }

  /**
   * The labels the three rules emit for one row, in evaluation order.
   * Each rule is a strict comparison; the turn rule needs the column to exist.
   */
  function Labels(row: TelemetryRow, hasAngularVelocity: bool): (labels: seq<string>)
    ensures HarshBrake in labels <==> row.braking > HarshBrakeThreshold
    ensures Overspeed in labels <==> row.speed > OverspeedThreshold
    ensures SharpTurn in labels <==> hasAngularVelocity && row.angularVelocity > SharpTurnThreshold
    ensures forall k :: 0 <= k < |labels| ==> labels[k] in [HarshBrake, Overspeed, SharpTurn]
    ensures forall i, j :: 0 <= i < j < |labels| ==> Rank(labels[i]) < Rank(labels[j])
  {
    (if row.braking > HarshBrakeThreshold then [HarshBrake] else [])
    + (if row.speed > OverspeedThreshold then [Overspeed] else [])
    + (if hasAngularVelocity && row.angularVelocity > SharpTurnThreshold then [SharpTurn] else [])
  }

  /** The text written into the `event` column of one row. */
  function EventText(row: TelemetryRow, hasAngularVelocity: bool): string
  {
    var labels := Labels(row, hasAngularVelocity);
    if labels != [] then Join(labels, EventSeparator) else Normal
  }

  /** The sentinel "normal" is written exactly when no rule fired. */
  lemma EventTextIsNormalIffQuiet(row: TelemetryRow, hasAngularVelocity: bool)
    ensures EventText(row, hasAngularVelocity) == Normal
            <==> (row.braking <= HarshBrakeThreshold && row.speed <= OverspeedThreshold
                  && !(hasAngularVelocity && row.angularVelocity > SharpTurnThreshold))
  {
    var labels := Labels(row, hasAngularVelocity);
    if labels != [] {
      JoinStartsWithFirst(labels, EventSeparator);
      assert |labels[0]| > |Normal|;
    }
  }

  /** A row that differs from the others only in speed and braking. */
  function SampleRow(speed: real, braking: real): TelemetryRow
  {
    TelemetryRow("2024-01-01T00:00:00", "V1", "Alice", "P1", 40.0, -74.0, speed, braking, 0.0,
                 "Clear", "highway", 50.0, 80.0, 1.0, 10.0, 0.0, None)
  }

  /** Worked cases: each threshold is strict, and two labels come brake first. */
  lemma DetectionExamples()
    ensures EventText(SampleRow(50.0, 0.71), false) == "harsh_brake"
    ensures EventText(SampleRow(101.0, 0.2), false) == "overspeed"
    ensures EventText(SampleRow(101.0, 0.71), false) == "harsh_brake, overspeed"
    ensures EventText(SampleRow(60.0, 0.3), false) == "normal"
    ensures EventText(SampleRow(100.0, 0.7), false) == "normal"
    ensures EventText(SampleRow(60.0, 0.3).(angularVelocity := 6.0), true) == "sharp_turn"
    ensures EventText(SampleRow(60.0, 0.3).(angularVelocity := 6.0), false) == "normal"
  {
  }

  /**
   * The body of the detection loop for one row: the rules append their labels to a
   * fresh list in evaluation order, and the list is joined or replaced by "normal".
   */
  method DetectRowEvent(row: TelemetryRow, hasAngularVelocity: bool) returns (text: string)
    ensures text == EventText(row, hasAngularVelocity)
  {
    var events: seq<string> := [];
    if row.braking > HarshBrakeThreshold {
      events := events + [HarshBrake];
    }
    if row.speed > OverspeedThreshold {
      events := events + [Overspeed];
    }
    if hasAngularVelocity && row.angularVelocity > SharpTurnThreshold {
      events := events + [SharpTurn];
    }
    assert events == Labels(row, hasAngularVelocity);
    text := if events != [] then Join(events, EventSeparator) else Normal;
  }

  /**
   * The detection loop: every row's `event` is overwritten with the row's event text.
   * Every other field, the number of rows and their order stay as they were.
   */
  method DetectEvents(rows: array<TelemetryRow>, hasAngularVelocity: bool)
    modifies rows
    ensures forall i :: 0 <= i < rows.Length ==>
              rows[i] == old(rows[i]).(event := Some(EventText(old(rows[i]), hasAngularVelocity)))
  {
    for i := 0 to rows.Length
      invariant forall k :: 0 <= k < i ==>
                  rows[k] == old(rows[k]).(event := Some(EventText(old(rows[k]), hasAngularVelocity)))
      invariant forall k :: i <= k < rows.Length ==> rows[k] == old(rows[k])
    {
      var row := rows[i];
      var text := DetectRowEvent(row, hasAngularVelocity);
      rows[i] := row.(event := Some(text));
    }
  }
}
