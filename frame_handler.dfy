/**
 * The decision part of the `/analyze/` endpoint, `analyze_frame`
 * (main.py:176-199): detect, and only when something was detected, gate and
 * dispatch an alert; the response always echoes the camera and the detections.
 *
 * Saving the upload, drawing the annotated image and removing the temporary
 * files are not part of this model.
 */
module FrameHandler {
  import opened Wrappers
  import opened Detections
  import opened Alerts
  import opened Cooldown

  /** The JSON body the endpoint returns. */
  datatype AnalyzeResponse = AnalyzeResponse(cameraId: string, detections: seq<Detection>, alertSent: bool)

  /** The response, the payload handed to the dispatcher (if any) and the cooldown table after the request. */
  datatype FrameOutcome = FrameOutcome(response: AnalyzeResponse, dispatched: Option<AlertPayload>, table: Timestamps)

  /** What a request does with the detections it found, given the table before it. */
  function AnalyzeDecision(table: Timestamps, cooldown: real, cameraId: string, detections: seq<Detection>,
                           now: real, delivered: bool): (r: FrameOutcome)
    ensures r.response.cameraId == cameraId && r.response.detections == detections
    ensures detections == [] ==> !r.response.alertSent && r.dispatched == None && r.table == table
    ensures r.response.alertSent <==>
      detections != [] && !InCooldown(table, cooldown, cameraId, now) && delivered
    ensures r.dispatched.Some? <==> detections != [] && !InCooldown(table, cooldown, cameraId, now)
    ensures r.dispatched.Some? ==> r.dispatched.value == BuildAlertPayload(cameraId, detections)
    ensures r.table == if r.response.alertSent then table[cameraId := now] else table
  {
    if detections == [] then
      FrameOutcome(AnalyzeResponse(cameraId, detections, false), None, table)
    else
      var o := GateStep(table, cooldown, cameraId, now, delivered);
      FrameOutcome(AnalyzeResponse(cameraId, detections, o.sent),
                   if o.attempted then Some(BuildAlertPayload(cameraId, detections)) else None,
                   o.table)
  }

  /**
   * `analyze_frame`: `results` stands for the detector's output on the
   * uploaded frame, `now` for the clock and `delivered` for the dispatcher's
   * answer.
   */
  method AnalyzeFrame(gate: AlertGate, cameraId: string, results: seq<seq<RawBox>>, threshold: real,
                      now: real, delivered: bool)
    returns (response: AnalyzeResponse, dispatched: Option<AlertPayload>)
    modifies gate
    ensures var o := AnalyzeDecision(old(gate.lastAlertTime), gate.cooldown, cameraId,
                                     Normalized(Flatten(results), threshold), now, delivered);
      response == o.response && dispatched == o.dispatched && gate.lastAlertTime == o.table
  {
    var detections := DetectMissingPpe(results, threshold);
    var alertSent := false;
    dispatched := None;
    if detections != [] {
      alertSent, dispatched := gate.HandleAlert(cameraId, detections, now, delivered);
    }
    response := AnalyzeResponse(cameraId, detections, alertSent);
  }

  /** The box of the example requests below: a missing hard hat at confidence 0.75. */
  const HardhatBox: RawBox := RawBox("no-hardhat", 0.75, 10, 20, 110, 220)

  /**
   * A client of the endpoint: a camera's first violation is alerted and the
   * time recorded; a repeat five seconds later is suppressed.
   */
  method FirstAlertThenRepeat() {
    var gate := new AlertGate(DefaultCooldownSeconds);
    var d := Detection("hardhat", 0.75, BBox(10, 20, 100, 200));
    assert Normalized([HardhatBox], DefaultConfidenceThreshold) == [d] by {
      assert [HardhatBox][..0] == [];
    }
    assert Flatten([[HardhatBox]]) == [HardhatBox] by {
      assert [[HardhatBox]][..0] == [];
    }

    var r1, p1 := AnalyzeFrame(gate, "cam-1", [[HardhatBox]], DefaultConfidenceThreshold, 1000.0, true);
    assert r1 == AnalyzeResponse("cam-1", [d], true);
    assert p1 == Some(AlertPayload("cam-1", "new", [d]));
    assert gate.lastAlertTime == map["cam-1" := 1000.0];

    var r2, p2 := AnalyzeFrame(gate, "cam-1", [[HardhatBox]], DefaultConfidenceThreshold, 1005.0, true);
    assert !r2.alertSent && p2 == None;
    assert gate.lastAlertTime == map["cam-1" := 1000.0];
  }

  /** A client of the endpoint: a dispatch that fails leaves the cooldown unconsumed. */
  method FailedDispatch() {
    var gate := new AlertGate(DefaultCooldownSeconds);
    assert Normalized([HardhatBox], DefaultConfidenceThreshold) != [] by {
      assert [HardhatBox][..0] == [];
    }
    assert Flatten([[HardhatBox]]) == [HardhatBox] by {
      assert [[HardhatBox]][..0] == [];
    }
    var r, p := AnalyzeFrame(gate, "cam-2", [[HardhatBox]], DefaultConfidenceThreshold, 1005.0, false);
    assert !r.alertSent && p.Some?;
    assert gate.lastAlertTime == map[];
  }

  /** A client of the endpoint: a frame whose only box is a class outside the vocabulary sends nothing. */
  method UnknownClassIgnored() {
    assert "person" !in ClassToPpe;
    var person := RawBox("person", 0.9, 0, 0, 5, 5);
    var results := [[person]];
    assert Flatten(results) == [person] by {
      assert results[..0] == [];
    }
    NormalizedEmpty([person], DefaultConfidenceThreshold);
    var gate := new AlertGate(DefaultCooldownSeconds);
    var r, p := AnalyzeFrame(gate, "cam-3", results, DefaultConfidenceThreshold, 2000.0, true);
    assert r == AnalyzeResponse("cam-3", [], false) && p == None;
    assert gate.lastAlertTime == map[];
  }

  /** A client of the endpoint: a frame whose only box is under the threshold sends nothing. */
  method LowConfidenceIgnored() {
    var faint := RawBox("no-vest", 0.25, 0, 0, 5, 5);
    assert !Qualifies(faint, DefaultConfidenceThreshold);
    var results := [[faint]];
    assert Flatten(results) == [faint] by {
      assert results[..0] == [];
    }
    NormalizedEmpty([faint], DefaultConfidenceThreshold);
    var gate := new AlertGate(DefaultCooldownSeconds);
    var r, p := AnalyzeFrame(gate, "cam-3", results, DefaultConfidenceThreshold, 2000.0, true);
    assert r == AnalyzeResponse("cam-3", [], false) && p == None;
    assert gate.lastAlertTime == map[];
  }
}
