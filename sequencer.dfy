/**
 * The alert sequencer: a cursor over the filtered alert rows that moves one row
 * forward per timer-driven rerun of the page and stops for good after the last row.
 */
module Sequencer {
  import opened Wrappers
  import opened Alerts
  import opened RestAreas

  /** The session state: the index of the shown row and whether the walk is over. */
  datatype Cursor = Cursor(alertIdx: nat, finished: bool)

  /** A fresh session: first row, not finished. */
  const Start: Cursor := Cursor(0, false)

  /** One tick over `n` alert rows: step forward, or finish on the last row; nothing once finished. */
  function Advance(c: Cursor, n: nat): (next: Cursor)
    ensures c.finished ==> next == c
    ensures next.alertIdx >= c.alertIdx
    ensures c.alertIdx < n ==> next.alertIdx < n
  {
    if c.finished then c
    else if c.alertIdx < n - 1 then c.(alertIdx := c.alertIdx + 1)
    else c.(finished := true)
  }

  /** The state after `k` ticks of a fresh session over `n` rows. */
  function AfterTicks(n: nat, k: nat): Cursor
  {
    if k == 0 then Start else Advance(AfterTicks(n, k - 1), n)
  }

  /**
   * A fresh session over n >= 1 rows shows row k after k < n ticks and is finished,
   * still on the last row, from the n-th tick on.
   */
  lemma {:induction false} AfterTicksClosedForm(n: nat, k: nat)
    requires n >= 1
    ensures AfterTicks(n, k) == if k < n then Cursor(k, false) else Cursor(n - 1, true)
  {
    if k > 0 {
      AfterTicksClosedForm(n, k - 1);
    }
  }

  /** Across ticks the index never decreases and never passes the last row. */
  lemma AfterTicksMonotone(n: nat, k: nat, k': nat)
    requires n >= 1 && k <= k'
    ensures AfterTicks(n, k).alertIdx <= AfterTicks(n, k').alertIdx <= n - 1
  {
    AfterTicksClosedForm(n, k);
    AfterTicksClosedForm(n, k');
  }

  /** The session is finished exactly from the n-th tick on, and stays finished. */
  lemma FinishedAfterExactlyN(n: nat, k: nat)
    requires n >= 1
    ensures AfterTicks(n, k).finished <==> k >= n
    ensures !AfterTicks(n, k).finished ==> AfterTicks(n, k).alertIdx < n
  {
    AfterTicksClosedForm(n, k);
  }

  /** A session over three rows: rows 0, 1, 2, then finished, then unchanged. */
  lemma ThreeRowSession()
    ensures AfterTicks(3, 0) == Cursor(0, false) && AfterTicks(3, 1) == Cursor(1, false)
    ensures AfterTicks(3, 2) == Cursor(2, false) && AfterTicks(3, 3) == Cursor(2, true)
    ensures AfterTicks(3, 4) == AfterTicks(3, 3)
  {
  }

  /** What the page shows for the current row. */
  datatype AlertView = AlertView(row: FusedRow, events: seq<string>, status: AlertStatus,
                                 stressPct: real, fatiguePct: real, restArea: Option<RestArea>)

  /** The per-session state kept across reruns of the page. */
  class AlertSequencer {
    const rows: seq<FusedRow>
    const n: nat
    var alertIdx: nat
    var finished: bool

    ghost predicate Valid()
      reads this
    {
      n == |rows| && n >= 1 && alertIdx < n
    }

    function State(): Cursor
      reads this
    {
      Cursor(alertIdx, finished)
    }

    /** Session initialisation over a non-empty selection: first row, not finished. */
    constructor (alerts: seq<FusedRow>)
      requires alerts != []
      ensures Valid() && rows == alerts && State() == Start
    {
      rows := alerts;
      n := |alerts|;
      alertIdx := 0;
      finished := false;
    }

    /**
     * One rerun of the page. The auto-refresh is only mounted while not finished
     * (otherwise the count is taken as 0); a positive count advances the cursor.
     */
    method Tick(refreshCount: nat)
      requires Valid()
      modifies this
      ensures Valid()
      ensures State() == if refreshCount > 0 then Advance(old(State()), n) else old(State())
    {
      var count := if !finished then refreshCount else 0;
      if count > 0 && !finished {
        if alertIdx < n - 1 {
          alertIdx := alertIdx + 1;
        } else {
          finished := true;
        }
      }
    }

    /**
     * The display section: nothing while finished; otherwise the row at the
     * cursor, its badges, its banner, its stress and fatigue bars and, for a stressed driver,
     * the nearest rest area.
     */
    method Display(areas: array<RestArea>, dist: (Point, Point) -> real) returns (view: Option<AlertView>)
      requires Valid()
      ensures view.None? <==> finished
      ensures view.Some? ==>
                && view.value.row == rows[alertIdx]
                && view.value.events == ParseEvents(rows[alertIdx].event)
                && view.value.status == Classify(rows[alertIdx].riskScore, rows[alertIdx].stressLevel)
                && view.value.stressPct == ProgressPct(rows[alertIdx].stressLevel)
                && view.value.fatiguePct == ProgressPct(rows[alertIdx].fatigue)
                && 0.0 <= view.value.stressPct <= 100.0 && 0.0 <= view.value.fatiguePct <= 100.0
                && (view.value.restArea.Some? <==> rows[alertIdx].stressLevel > RestStopStress && areas.Length > 0)
                && (view.value.restArea.Some? ==>
                      exists k :: IsFirstNearest(areas[..], Point(rows[alertIdx].gpsLat, rows[alertIdx].gpsLon), dist, k)
                                  && areas[k] == view.value.restArea.value)
    {
      if finished {
        return None;
      }
      var row := rows[alertIdx];
      var events := ParseEvents(row.event);
      var status := Classify(row.riskScore, row.stressLevel);
      var rest := SuggestRestArea(row.stressLevel, Point(row.gpsLat, row.gpsLon), areas, dist);
      view := Some(AlertView(row, events, status, ProgressPct(row.stressLevel), ProgressPct(row.fatigue), rest));
    }
  }

  /**
   * Opening the alert screen: the scored rows are filtered; an empty selection stops
   * the page before any session state exists, otherwise a fresh session starts.
   */
  method StartSession(scored: seq<FusedRow>) returns (session: AlertSequencer?)
    ensures session == null <==> FilterAlerts(scored) == []
    ensures session != null ==>
              fresh(session) && session.Valid() && session.rows == FilterAlerts(scored)
              && session.State() == Start
  {
    var alerts := FilterAlerts(scored);
    if alerts == [] {
      return null;
    }
    session := new AlertSequencer(alerts);
  }
}
