# DriveBuddy core: event labelling, context encoding, alert sequencing

A Dafny model of the rule-based core of DriveBuddy-AI, a driving-alert prototype.

The first half is the batch pipeline in `risk_score_calc.py`:
- the event detector labels each telemetry row `harsh_brake`, `overspeed` and/or `sharp_turn` by strict thresholds, or `normal`;
- three fixed dictionaries encode weather, road type and traffic density as 0, 1 or 2;
- a synthetic risk target is a weighted sum of three normalised features, clipped to [0, 1].

The second half is the alert screen in `streamlit_nudge_ui_v2.py`:
- the alert filter keeps rows with `risk_score >= 0.85` and `stress_level >= 65`;
- the sequencer is session state (`alert_idx`, `finished`) that moves one row per auto-refresh and stops after the last row;
- the display parses the event text back into badges, clamps progress bars to [0, 100], picks one of four status banners and, for stress above 70, looks up the nearest rest area by a linear scan.

Modules, one per component:
- `Wrappers`: `Option`, standing for `None` and pandas' NaN.
- `Text`: the Python string operations `join`, `split` and `strip`.
- `Numeric`: clamping.
- `EventDetector`: the labelling loop.
- `Codebook`: the category dictionaries.
- `RiskTarget`: the synthetic target.
- `Alerts`: filter, event parsing, progress clamp, status.
- `RestAreas`: nearest-area scan and stress gate.
- `Sequencer`: cursor, session class, display.

Floating-point columns are modelled as `real`. The geodesic distance is a function-typed parameter `dist`, so the scan is proved for every distance function.

The model follows the code on two edge cases:
- An unknown category encodes to a missing value (`Series.map` gives NaN), not to an error (risk_score_calc.py:57-59).
- An empty rest-area catalogue makes the scan return `None` (streamlit_nudge_ui_v2.py:31, 38).

## Model

| member | source | states |
|---|---|---|
| EventDetector.Labels | risk_score_calc.py:15-33 | `harsh_brake` is emitted iff braking > 0.7, `overspeed` iff speed > 100, `sharp_turn` iff the angular-velocity column exists and its value > 5.0; every label is one of the three, in strictly increasing evaluation order (so none repeats) |
| EventDetector.EventTextIsNormalIffQuiet | risk_score_calc.py:36 | the written event text is `normal` exactly when none of the three rules fired |
| EventDetector.DetectionExamples | risk_score_calc.py:15-36 | braking 0.71 gives `harsh_brake`; speed 101 gives `overspeed`; both give `harsh_brake, overspeed`; the boundary values 0.7 and 100 give `normal`; a sharp turn needs the column |
| EventDetector.DetectRowEvent | risk_score_calc.py:23-36 | the per-row loop body (append per rule, join with ", " or write `normal`) computes exactly the row's event text |
| EventDetector.DetectEvents | risk_score_calc.py:19-36 | after the loop every row equals its old value with only `event` replaced by that row's event text; row count and order unchanged |
| Codebook.Encode | risk_score_calc.py:57-59 | a category gets a code exactly when the dictionary knows it; otherwise the value is missing |
| Codebook.EncodeColumn | risk_score_calc.py:57-59 | encoding a column keeps its length and order and encodes each entry on its own |
| Codebook.CodebooksNumberLevels | risk_score_calc.py:53-55 | each dictionary knows exactly its three levels and gives the level at position c the code c |
| Codebook.EncodeDecode | risk_score_calc.py:53-59 | a known category's code lies in range and names the category back through the level list; every level encodes to its own position |
| Codebook.KnownCodes | risk_score_calc.py:53-59 | Clear/Rain/Fog, highway/city/rural and low/medium/high encode to 0/1/2; every code lies in {0,1,2}; `Snow` is missing |
| Codebook.SimulatedTrafficAlwaysEncodes | risk_score_calc.py:41-59 | a traffic column drawn from the simulated levels never has a missing code |
| Numeric.Clamp | risk_score_calc.py:77 | the clip lies in [lo, hi], is the identity inside the interval and gives the nearer bound outside it |
| Numeric.ClampMonotone | risk_score_calc.py:77 | clipping preserves the order of its inputs |
| Numeric.ClampIdempotent | risk_score_calc.py:77 | clipping twice equals clipping once |
| RiskTarget.SyntheticTarget | risk_score_calc.py:76-77 | the target of a scaled feature row is in [0,1]; when the row is already in [0,1] the clip changes nothing and the target is 0.5·speed + 0.3·braking + 0.2·traffic |
| RiskTarget.SyntheticTargets | risk_score_calc.py:76-77 | the target column has one value per row, each in [0,1] |
| RiskTarget.TargetIgnoresOtherColumns | risk_score_calc.py:76 | rows agreeing on speed, braking and traffic code have the same target |
| Text.Split | streamlit_nudge_ui_v2.py:262 | `split(",")` always gives at least one piece and no piece contains the separator |
| Text.JoinSplit | streamlit_nudge_ui_v2.py:262 | joining the pieces of a split with the separator restores the string |
| Text.Strip | streamlit_nudge_ui_v2.py:262 | `strip()` leaves no whitespace at either end and leaves an already stripped string unchanged |
| Text.StripCutsOnlyEdges | streamlit_nudge_ui_v2.py:262 | `strip()` returns a contiguous slice of its input, and everything cut off before and after that slice is whitespace |
| Text.StripAfterSpace | streamlit_nudge_ui_v2.py:262 | stripping a padded non-empty stripped string removes exactly the padding |
| Alerts.FilterAlerts | streamlit_nudge_ui_v2.py:180 | a row is kept iff it is in the table with risk_score >= 0.85 and stress_level >= 65; no more rows than the table |
| Alerts.FilterAlertsIsSubsequence | streamlit_nudge_ui_v2.py:180 | the kept rows are a subsequence of the table, in the original order |
| Alerts.FilterAlertsAppend | streamlit_nudge_ui_v2.py:180 | filtering a concatenation is the concatenation of the filtered parts |
| Alerts.FilterAlertsEmpty | streamlit_nudge_ui_v2.py:185-187 | the selection is empty (the page stops) exactly when no row meets both thresholds |
| Alerts.ParseEvents | streamlit_nudge_ui_v2.py:258-264 | a missing (non-string) cell parses to `["normal"]`; every parsed badge is non-empty, stripped and comma-free |
| Alerts.ParseEmptyText | streamlit_nudge_ui_v2.py:262 | an empty event text gives no badges |
| Alerts.ParseJoinRoundTrip | streamlit_nudge_ui_v2.py:258-264 | joining non-empty, stripped, comma-free labels with ", " and parsing the text gives the same list back |
| Alerts.ParseDetectedEvent | streamlit_nudge_ui_v2.py:258-264 | the badges of a detected row are the detector's labels in detection order, or just `normal` when no rule fired |
| Alerts.ProgressPct | streamlit_nudge_ui_v2.py:293-294 | the bar width lies in [0,100], equals the input inside that range, and is 0 below and 100 above |
| Alerts.Classify | streamlit_nudge_ui_v2.py:318-328 | exactly one banner: critical iff risk > 0.8 and stress > 70; elevated iff not critical and risk > 0.6; high stress iff risk <= 0.6 and stress > 70; safe otherwise (the banner's 70 is its own constant, separate from the rest-stop gate's) |
| Alerts.FilteredRowStatus | streamlit_nudge_ui_v2.py:318-328 | a row that passed the filter is shown critical when stress > 70 and elevated otherwise |
| RestAreas.FirstNearestIsUnique | streamlit_nudge_ui_v2.py:30-38 | at most one index is the first nearest area |
| RestAreas.NearestRestArea | streamlit_nudge_ui_v2.py:30-38 | `None` iff the catalogue is empty; otherwise an area whose distance is <= every area's and < every earlier area's (the first of equal-distance ties) |
| RestAreas.SuggestRestArea | streamlit_nudge_ui_v2.py:358-359 | no lookup and no area when stress <= 70; when stress > 70 the first nearest area, missing only for an empty catalogue |
| Sequencer.Advance | streamlit_nudge_ui_v2.py:206-210 | a tick leaves a finished cursor unchanged, never decreases the index and never moves it past the last row |
| Sequencer.AfterTicksClosedForm | streamlit_nudge_ui_v2.py:194-210 | from a fresh session over n >= 1 rows, k < n ticks give index k and not finished; n or more ticks give the last index and finished |
| Sequencer.AfterTicksMonotone | streamlit_nudge_ui_v2.py:206-210 | across ticks the index never decreases and never exceeds n-1 |
| Sequencer.FinishedAfterExactlyN | streamlit_nudge_ui_v2.py:200-217 | a session is finished exactly from the n-th tick on; while it is not finished the shown index is in bounds |
| Sequencer.ThreeRowSession | streamlit_nudge_ui_v2.py:194-210 | over three rows the cursor goes 0, 1, 2, then finished, and a further tick changes nothing |
| Sequencer.AlertSequencer.constructor | streamlit_nudge_ui_v2.py:194-197 | a session starts at index 0, not finished, over a non-empty selection |
| Sequencer.AlertSequencer.Tick | streamlit_nudge_ui_v2.py:199-210 | a rerun with a positive refresh count performs one `Advance`; a finished session is not refreshed and is unchanged |
| Sequencer.AlertSequencer.Display | streamlit_nudge_ui_v2.py:215-359 | nothing is shown once finished; otherwise the row at the cursor, its parsed badges, its banner, stress and fatigue bars equal to the clamped stress and fatigue (so in [0,100]), and the first nearest rest area exactly when stress > 70 and the catalogue is non-empty |
| Sequencer.StartSession | streamlit_nudge_ui_v2.py:180-197 | no session when the filtered selection is empty; otherwise a fresh session over exactly the filtered rows, at index 0 and not finished |

## Left out

- Min-max scaling (`MinMaxScaler`) is not modelled. The random-forest fit and prediction are not modelled either. Both are library numerics. So `risk_score` is an input column of the alert screen, and its range is not proved.
- The simulated traffic densities (`np.random.choice`) are not modelled. They are random. Only their level list is kept, to show that they always encode.
- The pandas merge of telemetry with traffic is not modelled. It joins the table with a copy of its own keys. The model assumes each (timestamp, vehicle_id) key occurs once. With a key that occurs m times, the inner merge would produce m² rows for it.
- CSV reading and writing are not modelled: they are file I/O. Written event text is assumed to read back unchanged, or as a missing value.
- The rest-area catalogue download is left out. It is network I/O, so the catalogue is a parameter.
- The geodesic distance is a parameter `dist` and is not defined here. It is a foreign library call.
- The LLM prompt and calls, text-to-speech, audio, the map and the Google Maps URLs are not modelled. They are external services or presentation. So are the badge colours and all page layout.
- The auto-refresh timer is not modelled. Only its effect is: a rerun with a refresh count.
- The heart-rate progress bar (`min(heart_rate / 2, 100)`) is not modelled: it is presentation. The stress and fatigue bars are modelled.
- The summary shown after the last alert is not modelled: it is an LLM call.
- The initial `event = None` assignment is not modelled separately. The loop overwrites every row's event.
- `streamlit_policy_risk_dashboard.py` is not part of this model. It is CSV loading, an LLM call and charts.
- Text.Strip: only ASCII whitespace is stripped. Python's `strip()` also removes Unicode spaces, which cannot appear in detector labels.
- Floating point: columns are unbounded reals. NaN, infinities and rounding are not modelled. In the source a NaN compares false, so such a row would fire no rule and fail the filter.
