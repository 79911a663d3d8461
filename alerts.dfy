/** The alert payload the dispatcher forwards (`build_alert_payload`, main.py:105-111). */
module Alerts {
  import opened Detections

  /** Status every new alert carries. */
  const NewStatus: string := "new"

  datatype AlertPayload = AlertPayload(cameraId: string, status: string, ppeDetections: seq<Detection>)

  /** A new alert for one camera, carrying the detections untouched and in order. */
  function BuildAlertPayload(cameraId: string, detections: seq<Detection>): (p: AlertPayload)
    ensures p.cameraId == cameraId
    ensures p.status == "new"
    ensures p.ppeDetections == detections
  {
    AlertPayload(cameraId, NewStatus, detections)
  }
}
