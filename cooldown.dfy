/**
 * The per-camera alert cooldown gate: `handle_alert` (main.py:158-170) over
 * the process-wide table `last_alert_time` (main.py:38).
 *
 * The clock (`time.time()`) becomes the parameter `now`, and the result of
 * `send_alert` becomes the parameter `delivered`: whether the dispatch of this
 * attempt would succeed.
 */
module Cooldown {
  import opened Wrappers
  import opened Detections
  import opened Alerts

  /** Camera id to the time of its last delivered alert. */
  type Timestamps = map<string, real>

  /** Default of the cooldown in seconds (ALERT_COOLDOWN_SECONDS). */
  const DefaultCooldownSeconds: real := 30.0

  /** The recorded time, where a camera never alerted reads as time 0. */
  function LastAlertTime(table: Timestamps, cameraId: string): (t: real)
    ensures cameraId in table ==> t == table[cameraId]
    ensures cameraId !in table ==> t == 0.0
  {
    if cameraId in table then table[cameraId] else 0.0
  }

  /**
   * The suppression test of `handle_alert`: less than `cooldown` seconds since
   * the camera's recorded alert, where a camera never alerted counts from time 0.
   */
  function InCooldown(table: Timestamps, cooldown: real, cameraId: string, now: real): (r: bool)
    ensures cameraId in table ==> (r <==> now - table[cameraId] < cooldown)
    ensures cameraId !in table ==> (r <==> now < cooldown)
  {
    now - LastAlertTime(table, cameraId) < cooldown
  }

  /** What one call of `handle_alert` did: tried to dispatch, delivered, and the table after. */
  datatype GateOutcome = GateOutcome(attempted: bool, sent: bool, table: Timestamps)

  /** One call of `handle_alert`, as a function of the table before it. */
  function GateStep(table: Timestamps, cooldown: real, cameraId: string, now: real, delivered: bool): (o: GateOutcome)
    ensures o.attempted <==> !InCooldown(table, cooldown, cameraId, now)
    ensures o.sent <==> o.attempted && delivered
    ensures o.sent ==> cameraId in o.table && o.table[cameraId] == now
    ensures !o.sent ==> o.table == table
    ensures o.table.Keys == table.Keys + (if o.sent then {cameraId} else {})
    ensures forall c :: c != cameraId ==> LastAlertTime(o.table, c) == LastAlertTime(table, c)
    ensures cooldown >= 0.0 ==> LastAlertTime(o.table, cameraId) >= LastAlertTime(table, cameraId)
  {
    if InCooldown(table, cooldown, cameraId, now) then GateOutcome(false, false, table)
    else if delivered then GateOutcome(true, true, table[cameraId := now])
    else GateOutcome(true, false, table)
  }

  /** One call of `handle_alert` in a run of the service. */
  datatype AlertCall = AlertCall(cameraId: string, now: real, delivered: bool)

  /** The table after a run of calls, starting from `table`: no camera is ever forgotten. */
  function TableAfter(table: Timestamps, cooldown: real, calls: seq<AlertCall>): (t: Timestamps)
    ensures table.Keys <= t.Keys
  {
    if calls == [] then table
    else
      var c := calls[|calls| - 1];
      GateStep(TableAfter(table, cooldown, calls[..|calls| - 1]), cooldown, c.cameraId, c.now, c.delivered).table
  }

  /**
   * The outcome of the i-th call of a run: the gate applied to the table the
   * earlier calls left; its table is the one after the first i + 1 calls.
   */
  function OutcomeAt(table: Timestamps, cooldown: real, calls: seq<AlertCall>, i: nat): (o: GateOutcome)
    requires i < |calls|
    ensures o.table == TableAfter(table, cooldown, calls[..i + 1])
  {
    assert calls[..i + 1][..i] == calls[..i];
    GateStep(TableAfter(table, cooldown, calls[..i]), cooldown, calls[i].cameraId, calls[i].now, calls[i].delivered)
  }

  /** The outcome of an early call does not depend on the calls after it. */
  lemma OutcomeAtPrefix(table: Timestamps, cooldown: real, calls: seq<AlertCall>, n: nat, k: nat)
    requires k < n <= |calls|
    ensures OutcomeAt(table, cooldown, calls[..n], k) == OutcomeAt(table, cooldown, calls, k)
  {
    assert calls[..n][..k] == calls[..k];
    assert calls[..n][k] == calls[k];
  }

  /**
   * Every recorded time is the initial one or the `now` of some call for that
   * camera whose alert was delivered.
   */
  lemma {:induction false} RecordedTimesComeFromCalls(table: Timestamps, cooldown: real, calls: seq<AlertCall>, c: string)
    requires c in TableAfter(table, cooldown, calls)
    ensures var t := TableAfter(table, cooldown, calls);
      (c in table && t[c] == table[c])
      || exists k :: 0 <= k < |calls| && calls[k].cameraId == c && calls[k].now == t[c]
                     && OutcomeAt(table, cooldown, calls, k).sent
  {
    if calls != [] {
      var n := |calls| - 1;
      var prev := TableAfter(table, cooldown, calls[..n]);
      var o := OutcomeAt(table, cooldown, calls, n);
      assert calls[..n + 1] == calls;
      if o.sent && c == calls[n].cameraId {
        assert calls[n].now == TableAfter(table, cooldown, calls)[c];
      } else {
        assert LastAlertTime(o.table, c) == LastAlertTime(prev, c);
        assert c in prev && o.table[c] == prev[c];
        RecordedTimesComeFromCalls(table, cooldown, calls[..n], c);
        if !(c in table && prev[c] == table[c]) {
          var k :| 0 <= k < n && calls[..n][k].cameraId == c && calls[..n][k].now == prev[c]
                   && OutcomeAt(table, cooldown, calls[..n], k).sent;
          assert calls[k] == calls[..n][k];
          OutcomeAtPrefix(table, cooldown, calls, n, k);
        }
      }
    }
  }

  /** With a non-negative cooldown, no camera's recorded time ever moves backwards. */
  lemma {:induction false} TimestampsNeverDecrease(table: Timestamps, cooldown: real, calls: seq<AlertCall>,
                                                    i: nat, j: nat, c: string)
    requires cooldown >= 0.0
    requires i <= j <= |calls|
    ensures LastAlertTime(TableAfter(table, cooldown, calls[..j]), c)
         >= LastAlertTime(TableAfter(table, cooldown, calls[..i]), c)
  {
    if i < j {
      TimestampsNeverDecrease(table, cooldown, calls, i, j - 1, c);
      var before := TableAfter(table, cooldown, calls[..j - 1]);
      var o := OutcomeAt(table, cooldown, calls, j - 1);
      assert LastAlertTime(o.table, c) >= LastAlertTime(before, c);
    }
  }

  /**
   * Between positions i and j of a run, a camera with no delivered alert keeps
   * its recorded time, and stays absent if it was absent.
   */
  lemma {:induction false} UntouchedBetween(table: Timestamps, cooldown: real, calls: seq<AlertCall>,
                                            i: nat, j: nat, c: string)
    requires i <= j <= |calls|
    requires forall k :: i <= k < j && calls[k].cameraId == c ==> !OutcomeAt(table, cooldown, calls, k).sent
    ensures LastAlertTime(TableAfter(table, cooldown, calls[..j]), c) == LastAlertTime(TableAfter(table, cooldown, calls[..i]), c)
    ensures c in TableAfter(table, cooldown, calls[..j]) <==> c in TableAfter(table, cooldown, calls[..i])
  {
    if i < j {
      UntouchedBetween(table, cooldown, calls, i, j - 1, c);
      var o := OutcomeAt(table, cooldown, calls, j - 1);
    }
  }

  /**
   * Starting from the empty table, a camera's first delivered-or-not attempt is
   * admitted exactly when `now - 0 >= cooldown`, whatever other cameras did.
   */
  lemma FirstAlertAdmission(cooldown: real, calls: seq<AlertCall>, i: nat)
    requires i < |calls|
    requires forall k :: 0 <= k < i && calls[k].cameraId == calls[i].cameraId ==> !OutcomeAt(map[], cooldown, calls, k).sent
    ensures OutcomeAt(map[], cooldown, calls, i).attempted <==> calls[i].now >= cooldown
  {
    UntouchedBetween(map[], cooldown, calls, 0, i, calls[i].cameraId);
    assert calls[..0] == [];
  }

  /**
   * With a non-negative cooldown, after an alert for a camera is delivered,
   * no later call for that camera even attempts a dispatch until `cooldown`
   * seconds have passed.
   */
  lemma CooldownSpacing(table: Timestamps, cooldown: real, calls: seq<AlertCall>, i: nat, j: nat)
    requires cooldown >= 0.0
    requires i < j < |calls|
    requires calls[i].cameraId == calls[j].cameraId
    requires OutcomeAt(table, cooldown, calls, i).sent
    ensures OutcomeAt(table, cooldown, calls, j).attempted ==> calls[j].now - calls[i].now >= cooldown
  {
    var o := OutcomeAt(table, cooldown, calls, i);
    TimestampsNeverDecrease(table, cooldown, calls, i + 1, j, calls[i].cameraId);
  }

  /**
   * Conversely, after a delivered alert at call i, and with no delivered alert
   * for the same camera in between, call j is admitted exactly when at least
   * `cooldown` seconds separate the two calls.
   */
  lemma AdmittedAfterCooldown(table: Timestamps, cooldown: real, calls: seq<AlertCall>, i: nat, j: nat)
    requires i < j < |calls|
    requires calls[i].cameraId == calls[j].cameraId
    requires OutcomeAt(table, cooldown, calls, i).sent
    requires forall k :: i < k < j && calls[k].cameraId == calls[j].cameraId ==> !OutcomeAt(table, cooldown, calls, k).sent
    ensures OutcomeAt(table, cooldown, calls, j).attempted <==> calls[j].now - calls[i].now >= cooldown
  {
    var o := OutcomeAt(table, cooldown, calls, i);
    UntouchedBetween(table, cooldown, calls, i + 1, j, calls[j].cameraId);
  }

  /** Hence a repeat within the window is suppressed: no dispatch, table untouched. */
  lemma RepeatWithinCooldownSuppressed(table: Timestamps, cooldown: real, calls: seq<AlertCall>, i: nat, j: nat)
    requires cooldown >= 0.0
    requires i < j < |calls|
    requires calls[i].cameraId == calls[j].cameraId
    requires OutcomeAt(table, cooldown, calls, i).sent
    requires calls[j].now - calls[i].now < cooldown
    ensures !OutcomeAt(table, cooldown, calls, j).attempted
    ensures TableAfter(table, cooldown, calls[..j + 1]) == TableAfter(table, cooldown, calls[..j])
  {
    CooldownSpacing(table, cooldown, calls, i, j);
    var o := OutcomeAt(table, cooldown, calls, j);
  }

  /** The process-wide table of `handle_alert`, with the configured cooldown. */
  class AlertGate {
    var lastAlertTime: Timestamps
    const cooldown: real

    constructor (cooldown: real)
      ensures this.cooldown == cooldown
      ensures lastAlertTime == map[]
    {
      this.cooldown := cooldown;
      lastAlertTime := map[];
    }

    /**
     * `handle_alert`: suppress while the camera is in its cooldown; otherwise
     * build the payload and dispatch it, and record `now` only on delivery.
     * `dispatched` is the payload handed to the dispatcher, if any.
     */
    method HandleAlert(cameraId: string, detections: seq<Detection>, now: real, delivered: bool)
      returns (success: bool, dispatched: Option<AlertPayload>)
      modifies this
      ensures InCooldown(old(lastAlertTime), cooldown, cameraId, now) ==>
        !success && dispatched == None && lastAlertTime == old(lastAlertTime)
      ensures !InCooldown(old(lastAlertTime), cooldown, cameraId, now) ==>
        dispatched == Some(BuildAlertPayload(cameraId, detections)) && success == delivered
      ensures lastAlertTime == if success then old(lastAlertTime)[cameraId := now] else old(lastAlertTime)
      ensures forall c :: c != cameraId ==> LastAlertTime(lastAlertTime, c) == LastAlertTime(old(lastAlertTime), c)
      ensures cooldown >= 0.0 ==> LastAlertTime(lastAlertTime, cameraId) >= LastAlertTime(old(lastAlertTime), cameraId)
      ensures var o := GateStep(old(lastAlertTime), cooldown, cameraId, now, delivered);
        success == o.sent && lastAlertTime == o.table && (dispatched.Some? <==> o.attempted)
    {
      var lastTime := if cameraId in lastAlertTime then lastAlertTime[cameraId] else 0.0;
      if now - lastTime < cooldown {
        return false, None;
      }
      var payload := BuildAlertPayload(cameraId, detections);
      dispatched := Some(payload);
      success := delivered;
      if success {
        lastAlertTime := lastAlertTime[cameraId := now];
      }
    }
  }
}
