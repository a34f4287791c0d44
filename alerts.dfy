/**
 * What the alert screen does with the scored table: keep the high-risk,
 * high-stress rows, read each row's event text back into badges, clamp progress
 * bars, and classify the driver's condition.
 */
module Alerts {
  import opened Wrappers
  import opened Text
  import opened Numeric
  import EventDetector

  const RiskScoreMin: real := 0.85
  const StressMin: real := 65.0
  const BannerRisk: real := 0.8         // risk above this, with high stress, is critical
  const BannerElevatedRisk: real := 0.6 // risk above this is elevated
  const BannerStress: real := 70.0      // stress above this is high

  /**
   * One row of the scored table, with the columns the alert screen reads. The
   * `event` cell as read back from the CSV is text, or missing (`None`).
   */
  datatype FusedRow = FusedRow(
    timestamp: string, driverName: string, policyNumber: string, vehicleId: string,
    gpsLat: real, gpsLon: real,
    speed: real, braking: real,
    trafficDensity: string, weather: string, roadType: string,
    stressLevel: real, heartRate: real, gsr: real, fatigue: real,
    event: Option<string>, riskScore: real)

  /** The alert filter's row condition. */
  predicate IsAlert(row: FusedRow)
  {
    row.riskScore >= RiskScoreMin && row.stressLevel >= StressMin
  }

  /** `s` is `t` with some elements left out, the rest in their original order. */
  predicate IsSubsequence<T(==)>(s: seq<T>, t: seq<T>)
    decreases |t|
  {
    if s == [] then true
    else if t == [] then false
    else if s[0] == t[0] then IsSubsequence(s[1..], t[1..])
    else IsSubsequence(s, t[1..])
  }

  /**
   * The boolean-mask selection of alert rows: exactly the rows meeting both
   * thresholds, never more rows than the table has.
   */
  function FilterAlerts(rows: seq<FusedRow>): (alerts: seq<FusedRow>)
    ensures |alerts| <= |rows|
    ensures forall row :: row in alerts <==> row in rows && IsAlert(row)
  {
    if rows == [] then []
    else (if IsAlert(rows[0]) then [rows[0]] else []) + FilterAlerts(rows[1..])
  }

  /** The filter keeps the original row order: it is a subsequence of the table. */
  lemma {:induction false} FilterAlertsIsSubsequence(rows: seq<FusedRow>)
    ensures IsSubsequence(FilterAlerts(rows), rows)
  {
    if rows != [] {
      FilterAlertsIsSubsequence(rows[1..]);
      var rest := FilterAlerts(rows[1..]);
      if IsAlert(rows[0]) {
        assert FilterAlerts(rows) == [rows[0]] + rest;
        assert ([rows[0]] + rest)[1..] == rest;
      } else {
        assert FilterAlerts(rows) == rest;
        if rest != [] {
          assert rest[0] in rest;
        }
      }
    }
  }

  /** Filtering a concatenation filters each part in turn. */
  lemma {:induction false} FilterAlertsAppend(a: seq<FusedRow>, b: seq<FusedRow>)
    ensures FilterAlerts(a + b) == FilterAlerts(a) + FilterAlerts(b)
  {
    if a == [] {
      assert a + b == b;
    } else {
      assert (a + b)[0] == a[0];
      assert (a + b)[1..] == a[1..] + b;
      FilterAlertsAppend(a[1..], b);
    }
  }

  /** The selection is empty exactly when no row meets both thresholds. */
  lemma FilterAlertsEmpty(rows: seq<FusedRow>)
    ensures FilterAlerts(rows) == [] <==> forall k :: 0 <= k < |rows| ==> !IsAlert(rows[k])
  {
    if FilterAlerts(rows) == [] {
      forall k | 0 <= k < |rows| ensures !IsAlert(rows[k]) {
        assert rows[k] in rows;
      }
    } else {
      assert FilterAlerts(rows)[0] in FilterAlerts(rows);
    }
  }

  /** The pieces of a comma split, stripped, with the empty ones dropped. */
  function StripPieces(pieces: seq<string>): (kept: seq<string>)
    ensures forall k :: 0 <= k < |kept| ==> kept[k] != "" && NoEdgeSpace(kept[k])
  {
    if pieces == [] then []
    else
      var head := Strip(pieces[0]);
      (if head != "" then [head] else []) + StripPieces(pieces[1..])
  }

  /**
   * The badge list of a row: a text cell is split on ",", each piece stripped and
   * the empty pieces dropped; a missing cell reads as just "normal".
   */
  function ParseEvents(cell: Option<string>): (events: seq<string>)
    ensures cell.None? ==> events == [EventDetector.Normal]
    ensures forall k :: 0 <= k < |events| ==> events[k] != "" && NoEdgeSpace(events[k]) && ',' !in events[k]
  {
    match cell
    case None => [EventDetector.Normal]
    case Some(s) =>
      var pieces := Split(s, ',');
      var kept := StripPieces(pieces);
      assert forall k :: 0 <= k < |kept| ==> ',' !in kept[k] by { StripPiecesNoComma(pieces); }
      kept
  }

  lemma {:induction false} StripPiecesNoComma(pieces: seq<string>)
    requires forall k :: 0 <= k < |pieces| ==> ',' !in pieces[k]
    ensures forall k :: 0 <= k < |StripPieces(pieces)| ==> ',' !in StripPieces(pieces)[k]
  {
    if pieces != [] {
      StripPiecesNoComma(pieces[1..]);
      var t := TrimStart(pieces[0]);
      assert t == pieces[0][|pieces[0]| - |t|..];
      assert Strip(pieces[0]) == TrimEnd(t);
      assert forall c :: c in TrimEnd(t) ==> c in pieces[0];
    }
  }

  /** A label that survives the trip through join and split. */
  predicate PlainLabel(s: string)
  {
    s != "" && NoEdgeSpace(s) && ',' !in s
  }

  /** Unfolds a padded ", "-join of two or more labels at its first comma. */
  lemma PaddedJoinStep(pad: string, labels: seq<string>)
    requires |labels| >= 2
    ensures pad + Join(labels, EventDetector.EventSeparator)
            == (pad + labels[0]) + [','] + (" " + Join(labels[1..], EventDetector.EventSeparator))
  {
    var rest := Join(labels[1..], EventDetector.EventSeparator);
    assert Join(labels, EventDetector.EventSeparator) == labels[0] + ", " + rest;
  }

  lemma {:induction false} ParseJoinPadded(pad: string, labels: seq<string>)
    requires |labels| >= 1 && AllSpace(pad) && ',' !in pad
    requires forall k :: 0 <= k < |labels| ==> PlainLabel(labels[k])
    ensures StripPieces(Split(pad + Join(labels, EventDetector.EventSeparator), ',')) == labels
    decreases |labels|
  {
    var sep := EventDetector.EventSeparator;
    StripAfterSpace(pad, labels[0]);
    if |labels| == 1 {
      assert pad + Join(labels, sep) == pad + labels[0];
      assert Split(pad + labels[0], ',') == [pad + labels[0]];
    } else {
      var rest := labels[1..];
      PaddedJoinStep(pad, labels);
      SplitAfterFirst(pad + labels[0], ',', " " + Join(rest, sep));
      ParseJoinPadded(" ", rest);
      var tail := Split(" " + Join(rest, sep), ',');
      assert ([pad + labels[0]] + tail)[1..] == tail;
    }
  }

  /** An empty cell text gives no badges at all. */
  lemma ParseEmptyText()
    ensures ParseEvents(Some("")) == []
  {
    assert Split("", ',') == [""];
    assert Strip("") == "";
    assert StripPieces([""]) == [] + StripPieces([]);
  }

  /**
   * Joining plain labels with ", " (as the detector writes them) and parsing the
   * text back gives the same labels in the same order.
   */
  lemma ParseJoinRoundTrip(labels: seq<string>)
    requires forall k :: 0 <= k < |labels| ==> PlainLabel(labels[k])
    ensures ParseEvents(Some(Join(labels, EventDetector.EventSeparator))) == labels
  {
    var text := Join(labels, EventDetector.EventSeparator);
    if labels == [] {
      assert text == "";
      ParseEmptyText();
    } else {
      ParseJoinPadded("", labels);
      assert "" + text == text;
      assert ParseEvents(Some(text)) == StripPieces(Split(text, ','));
    }
  }

  /**
   * The badges shown for a detected row are the detector's labels in detection
   * order, or the single badge "normal" when no rule fired; "normal" never shows
   * beside another badge.
   */
  lemma ParseDetectedEvent(row: EventDetector.TelemetryRow, hasAngularVelocity: bool)
    ensures var labels := EventDetector.Labels(row, hasAngularVelocity);
            ParseEvents(Some(EventDetector.EventText(row, hasAngularVelocity)))
            == if labels == [] then [EventDetector.Normal] else labels
  {
    var labels := EventDetector.Labels(row, hasAngularVelocity);
    if labels == [] {
      assert Join([EventDetector.Normal], EventDetector.EventSeparator) == EventDetector.Normal;
      ParseJoinRoundTrip([EventDetector.Normal]);
    } else {
      ParseJoinRoundTrip(labels);
    }
  }

  /** `progress_bar_html`'s width: `min(max(value, 0), 100)`. */
  function ProgressPct(value: real): (pct: real)
    ensures 0.0 <= pct <= 100.0
    ensures 0.0 <= value <= 100.0 ==> pct == value
    ensures value < 0.0 ==> pct == 0.0
    ensures value > 100.0 ==> pct == 100.0
  {
    Clamp(value, 0.0, 100.0)
  }

  datatype AlertStatus = Critical | Elevated | HighStress | Safe

  /** The alert banner: the first of the four cases whose condition holds. */
  function Classify(riskScore: real, stressLevel: real): (status: AlertStatus)
    ensures status == Critical <==> riskScore > BannerRisk && stressLevel > BannerStress
    ensures status == Elevated <==> !(riskScore > BannerRisk && stressLevel > BannerStress) && riskScore > BannerElevatedRisk
    ensures status == HighStress <==> riskScore <= BannerElevatedRisk && stressLevel > BannerStress
    ensures status == Safe <==> riskScore <= BannerElevatedRisk && stressLevel <= BannerStress
  {
    if riskScore > BannerRisk && stressLevel > BannerStress then Critical
    else if riskScore > BannerElevatedRisk then Elevated
    else if stressLevel > BannerStress then HighStress
    else Safe
  }

  /**
   * Every row that passes the alert filter is shown as critical (stress above 70)
   * or elevated; the high-stress and safe banners never appear.
   */
  lemma FilteredRowStatus(row: FusedRow)
    requires IsAlert(row)
    ensures Classify(row.riskScore, row.stressLevel)
            == if row.stressLevel > BannerStress then Critical else Elevated
  {
  }
}
