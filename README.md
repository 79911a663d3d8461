# PPE frame server: cooldown gate, detection normalisation, alert decision

This project models the decision logic of a small HTTP service. The service takes a camera frame, looks for missing personal protective equipment (PPE), and forwards an alert to a backend, throttled by a per-camera cooldown. The model has four modules, in the order data flows through the service, plus a shared `Option` type in `Wrappers` (`wrappers.dfy`):

- `Detections` (`detections.dfy`). The vocabulary `ClassToPpe` maps the detector's "negative" classes (`no-hardhat`, …) to the six PPE kinds. The post-processing loop of `detect_missing_ppe` keeps the raw boxes whose class is in the vocabulary and whose confidence reaches the threshold, and turns each into a `{missingPpe, confidence, bbox{x, y, width, height}}` record. The nested loop is the method `DetectMissingPpe`, proved equal to the filter-map `Normalized` over all boxes in visiting order. Lemmas show that `Normalized` keeps exactly the qualifying boxes, in input order, and distributes over concatenation.
- `Alerts` (`alerts.dfy`). `build_alert_payload`: the record `{cameraId, status: "new", ppeDetections}`.
- `Cooldown` (`cooldown.dfy`). The process-wide table `last_alert_time` is the class `AlertGate`, and `handle_alert` is its method `HandleAlert`. `GateStep` gives one call as a function of the table before it. A run of calls (`TableAfter`, `OutcomeAt`) is the table's life across requests. The main lemma, `CooldownSpacing`, says that with a non-negative cooldown, once a camera's alert is delivered, no later call for that camera reaches the dispatcher until `cooldown` seconds have passed.
- `FrameHandler` (`frame_handler.dfy`). The decision part of `analyze_frame` is the function `AnalyzeDecision` and the method `AnalyzeFrame`. That part is: detect; only when something was detected, gate and dispatch; answer `{cameraId, detections, alertSent}`. Four example requests are written as client methods:
  - `FirstAlertThenRepeat`: a first alert is delivered and recorded; a repeat 5 s later is suppressed.
  - `FailedDispatch`: a failed dispatch records nothing.
  - `UnknownClassIgnored` and `LowConfidenceIgnored`: frames with nothing qualifying send nothing.

Parameters replace what the model cannot see:
- The detector's output is the parameter `results`: one sequence of `RawBox` per result, with the class name already resolved and the corners already truncated to integers.
- The clock `time.time()` is the parameter `now`.
- The outcome of `send_alert` is the parameter `delivered`.

Times, the cooldown, confidences and the threshold are `real`. Defaults: a threshold of 0.4 and a cooldown of 30 s.

A camera with no entry reads as time 0 (main.py:161), so it is admitted only when `now >= cooldown`. `LastAlertTime`, `InCooldown` and `FirstAlertAdmission` state this.

## Model

| member | source | states |
|---|---|---|
| `Detections.PpeOf` | main.py:46-53 | a class is known iff it is a key of the vocabulary; every known class is `"no-" + kind` for one of the six PPE kinds |
| `Detections.Qualifies` | main.py:140-143 | a box passes both filters iff its class is in the vocabulary and its confidence is at or above the threshold; a passing box normalises to a record with a PPE kind and a confidence at or above the threshold |
| `Detections.Corners` | main.py:89-90 | the corners the annotator computes (x2 = x + width, y2 = y + height) convert back to the same box |
| `Detections.Flatten` | main.py:136-137 | the boxes the two nested loops visit are exactly the boxes of all the results |
| `Detections.FlattenAppend` | main.py:136-137 | flattening concatenated result lists equals concatenating their flattenings, so boxes are visited result by result, in order, repeats kept |
| `Detections.Normalize` | main.py:144-154 | the record carries the vocabulary's kind for the class and the box's confidence; its box converts back to the original corners (x2 = x + width, y2 = y + height, as main.py:89-90 recovers them) |
| `Detections.Normalized` | main.py:136-155 | no more detections than boxes; every detection names one of the six PPE kinds and has confidence at or above the threshold |
| `Detections.NormalizedIsFilterMap` | main.py:136-155 | the k-th detection is the normalisation of the k-th qualifying box; positions strictly increase (input order kept); every qualifying box appears |
| `Detections.NormalizedMembership` | main.py:140-146 | a record is produced iff some box with a known class and enough confidence normalises to it |
| `Detections.NormalizedAppend` | main.py:136-137 | normalising concatenated box lists equals concatenating their normalisations, so per-result processing agrees with processing all boxes at once |
| `Detections.NormalizedKeepsAll` | main.py:140-145 | the output is as long as the input iff every box qualifies (nothing is dropped only when nothing fails a filter) |
| `Detections.NormalizedEmpty` | main.py:140-145 | nothing is kept iff no box has both a known class and enough confidence (the no-detection path of the endpoint) |
| `Detections.DetectMissingPpe` | main.py:134-155 | the nested loop with its `continue` returns exactly the filter-map of all boxes of all results, in visiting order |
| `Alerts.BuildAlertPayload` | main.py:105-111 | the payload echoes the camera id, has status "new", and carries the detections unchanged and in order |
| `Cooldown.LastAlertTime` | main.py:161 | a recorded camera reads its entry; a camera with no entry reads as time 0 |
| `Cooldown.InCooldown` | main.py:162 | a recorded camera is in cooldown iff less than `cooldown` has passed since its entry; a camera with no entry iff `now < cooldown` |
| `Cooldown.GateStep` | main.py:158-170 | dispatch is attempted iff `now - last >= cooldown`; the alert counts as sent iff attempted and delivered; a sent alert records `now` for the camera; suppression or failure leave the table unchanged; no other camera's entry changes; with cooldown ≥ 0 the camera's time never decreases |
| `Cooldown.TableAfter` | main.py:158-170 | the table after successive `handle_alert` calls on the one process-wide `last_alert_time` (main.py:38); no camera's entry is ever removed |
| `Cooldown.OutcomeAt` | main.py:158-170 | the i-th call of a run is `GateStep` on the table the earlier calls left, and its table is the table after the first i + 1 calls |
| `Cooldown.RecordedTimesComeFromCalls` | main.py:168-169 | every entry after a run is either the initial one or the `now` of some call for that camera whose alert was delivered |
| `Cooldown.TimestampsNeverDecrease` | main.py:161-169 | across any run of calls with cooldown ≥ 0, every camera's recorded time is non-decreasing |
| `Cooldown.UntouchedBetween` | main.py:166-170 | between two positions of a run, a camera with no delivered alert keeps its recorded time and its presence or absence in the table; failures and other cameras' alerts do not touch it |
| `Cooldown.FirstAlertAdmission` | main.py:161-162 | from an empty table, a camera with no earlier delivered alert is admitted iff `now >= cooldown` |
| `Cooldown.CooldownSpacing` | main.py:161-169 | with cooldown ≥ 0, after a delivered alert for a camera, any later attempt for it happens at least `cooldown` seconds later |
| `Cooldown.AdmittedAfterCooldown` | main.py:161-169 | after a delivered alert at call i, with no delivered alert for that camera in between, call j is attempted iff `now_j - now_i >= cooldown` |
| `Cooldown.RepeatWithinCooldownSuppressed` | main.py:162-164 | with cooldown ≥ 0, a later call for the same camera less than `cooldown` after a delivered alert attempts no dispatch and leaves the table unchanged |
| `Cooldown.AlertGate.constructor` | main.py:38 | the table starts empty, with the configured cooldown |
| `Cooldown.AlertGate.HandleAlert` | main.py:158-170 | in cooldown: returns false, dispatches nothing, table unchanged; otherwise dispatches the built payload and returns the dispatcher's answer; the table gains `camera := now` only on success; other cameras keep their times; with cooldown ≥ 0 times only move forward; agrees with `GateStep` |
| `FrameHandler.AnalyzeDecision` | main.py:184-199 | the response always echoes camera id and detections; with no detections nothing is dispatched, `alertSent` is false and the table is unchanged; otherwise `alertSent` iff the gate admits and the dispatch is delivered, and the dispatched payload is the built one |
| `FrameHandler.AnalyzeFrame` | main.py:181-199 | the endpoint's response, dispatched payload and new cooldown table are those of `AnalyzeDecision` applied to the normalised detections |

## Left out

- Object detection (`model.predict`, `model.names`, main.py:35, 133, 138): a foreign ML library. Its output is an input sequence of raw boxes. The `int(...)` truncation of the corners (main.py:144) is taken as already applied, and an exception from the detector (fatal for the request) is not modelled.
- Drawing the annotated image (`draw_bounding_boxes`, main.py:76-102) and the colour table `PPE_COLORS` (main.py:55-62): image decoding, drawing and writing through OpenCV, with float label formatting. Only its corner arithmetic (main.py:89-90) appears, as `Corners`. The annotated image path passed to `handle_alert` is dropped from its parameters.
- HTTP dispatch (`send_alert`, main.py:114-128): network I/O, JSON serialisation, bearer header and the 15 s timeout. Its result is the parameter `delivered`.
- Exceptions that abort a request: `send_alert` catches only `requests.exceptions.RequestException` (main.py:126). If writing the annotated image fails (main.py:101), opening it (main.py:118) raises an error that escapes `handle_alert` and `analyze_frame`. An OpenCV error while drawing (main.py:93-101) escapes the same way. Then no response is returned and the temporary files are not removed. The model does not represent this path: `AnalyzeFrame` always returns a response. For these errors, raised inside `handle_alert`, the cooldown table stays as it would with `delivered == false`, because the write at main.py:169 is not reached. A failing `os.remove` in the cleanup loop (main.py:191-193) also aborts the request, but only after `handle_alert` has returned. For a delivered alert, the table then already holds `now` (main.py:169) even though no normal response goes out.
- File handling (`save_temp_file`, main.py:68-73; the cleanup loop, main.py:191-193; `uuid` names): filesystem side effects.
- Service setup (main.py:19-41): environment parsing, logging, FastAPI routing. The threshold and cooldown are parameters; their defaults are constants.
- Concurrency: `analyze_frame` is an `async def` (main.py:177) with no `await`, and every call inside it blocks (main.py:71, 121, 133). On one event loop, requests therefore run one after another, and the read at main.py:161 cannot interleave with another request's write at main.py:169. Within one worker process the sequential run of calls (`TableAfter`) is exact. Several worker processes would each hold their own table; that is not modelled.
- Floating point: times, confidences and the threshold are exact reals, not IEEE doubles.
- Box sanity: `Normalize` does not require `x2 >= x1` or `y2 >= y1`. Neither does the code, so widths and heights may be negative in the model as in the source.
- Repeatability of detection on the same frame: normalisation is a function of the detector's output, so it is deterministic by construction. The detector itself is outside the model.
