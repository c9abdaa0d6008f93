/**
 * The worker side of a scan (backend/app/tasks/scan_tasks.py): running a queued scan
 * against the scanner and storing its results, and cancelling a pending or running
 * scan. Both act on the rows of a `Ledger`. The scanner is a function from the scan
 * type and target to the alerts it reports or the message of the exception it raised.
 */
module ScanTasks {
  import opened Wrappers
  import opened ScanModel
  import opened ScanSchemas
  import opened ScanIngest
  import opened ScanLedger

  /** What one scanner call produces: the raw alert maps, or the failure's message. */
  datatype ScannerOutcome = Alerts(raws: seq<RawAlert>) | Raised(message: string)

  /** The summary a completed run returns. */
  datatype RunSummary = RunSummary(scanId: int, status: string, totalAlerts: nat, highRisk: nat, mediumRisk: nat, lowRisk: nat)

  /** How a run ends: the scan was missing, it completed, or the scanner raised (re-raised to the caller). */
  datatype RunOutcome = ScanMissing | Succeeded(summary: RunSummary) | RunFailed(message: string)

  /** How a cancel task ends. */
  datatype CancelOutcome = CancelMissing | NotCancellable | WasCancelled

  const CancelMessage := "Scan cancelled by user"

  /** The row once the run has started: in progress, start time and task id recorded, whatever its earlier status. */
  function Started(s: Scan, taskId: string, now: int): (r: Scan)
    ensures r.status == InProgress && r.startedAt == Some(now) && r.celeryTaskId == Some(taskId)
    ensures r.id == s.id && r.userId == s.userId && r.targetUrl == s.targetUrl && r.kind == s.kind
    ensures r.progress == s.progress && r.totalAlerts == s.totalAlerts && r.completedAt == s.completedAt
    ensures WellFormed(s) ==> WellFormed(r)
  {
    s.(status := InProgress, startedAt := Some(now), celeryTaskId := Some(taskId))
  }

  /** The row once the batch's counts are stored on it: status, progress and times as they were. */
  function Tallied(s: Scan, counts: RiskCounts): (r: Scan)
    ensures r.totalAlerts == counts.Total() && r.highRiskCount == counts.high && r.mediumRiskCount == counts.medium
    ensures r.lowRiskCount == counts.low && r.infoCount == counts.informational
    ensures CountersConsistent(r)
    ensures r.status == s.status && r.progress == s.progress && r.currentStep == s.currentStep
    ensures r.id == s.id && r.userId == s.userId && r.targetUrl == s.targetUrl && r.kind == s.kind
    ensures r.startedAt == s.startedAt && r.completedAt == s.completedAt && r.celeryTaskId == s.celeryTaskId
    ensures WellFormed(s) ==> WellFormed(r)
  {
    s.(totalAlerts := counts.Total(), highRiskCount := counts.high, mediumRiskCount := counts.medium,
       lowRiskCount := counts.low, infoCount := counts.informational)
  }

  /** The row after a successful run: the batch's counts stored, then completed at full progress. */
  function Finished(s: Scan, counts: RiskCounts, now: int): (r: Scan)
    ensures r.status == Completed && r.progress == 100 && r.currentStep == Some("Completed")
    ensures r.completedAt == Some(now) && r.updatedAt == now
    ensures r.totalAlerts == counts.Total() && r.highRiskCount == counts.high && r.mediumRiskCount == counts.medium
    ensures r.lowRiskCount == counts.low && r.infoCount == counts.informational
    ensures CountersConsistent(r)
    ensures r.id == s.id && r.userId == s.userId && r.targetUrl == s.targetUrl && r.startedAt == s.startedAt
    ensures WellFormed(s) ==> WellFormed(r)
  {
    Tallied(s, counts).(status := Completed, completedAt := Some(now), progress := 100, currentStep := Some("Completed"), updatedAt := now)
  }

  /** The row after the scanner raised: failed with the exception's text, counters as they were. */
  function Aborted(s: Scan, message: string, now: int): (r: Scan)
    ensures r.status == Failed && r.errorMessage == Some(message) && r.completedAt == Some(now) && r.updatedAt == now
    ensures r.totalAlerts == s.totalAlerts && r.highRiskCount == s.highRiskCount && r.mediumRiskCount == s.mediumRiskCount
    ensures r.lowRiskCount == s.lowRiskCount && r.infoCount == s.infoCount && r.progress == s.progress
    ensures r.id == s.id && r.userId == s.userId && r.startedAt == s.startedAt && r.celeryTaskId == s.celeryTaskId
    ensures WellFormed(s) ==> WellFormed(r)
  {
    s.(status := Failed, errorMessage := Some(message), completedAt := Some(now), updatedAt := now)
  }

  /** The row after a cancel: cancelled with the fixed message, completion and update times set. */
  function CancelledRow(s: Scan, now: int): (r: Scan)
    ensures r.status == Cancelled && r.errorMessage == Some(CancelMessage)
    ensures r.completedAt == Some(now) && r.updatedAt == now
    ensures r == s.(status := Cancelled, errorMessage := Some(CancelMessage), completedAt := Some(now), updatedAt := now)
    ensures WellFormed(s) ==> WellFormed(r)
  {
    s.(status := Cancelled, errorMessage := Some(CancelMessage), completedAt := Some(now), updatedAt := now)
  }

  /**
   * The path of a run after the scanner returned: the batch's rows and counters are
   * committed; then the scanner context is cleaned up (`cleanup` is the message of the
   * exception it raised, if any). A clean-up that returns lets the scan complete; one
   * that raises fails the committed scan with its message, keeping the rows and counters.
   */
  method CompleteRun(ledger: Ledger, scan: Scan, raws: seq<RawAlert>, cleanup: Option<string>, now: int) returns (outcome: RunOutcome)
    requires ledger.Valid() && scan.id in ledger.scans && WellFormed(scan)
    modifies ledger`alerts, ledger`scans
    ensures ledger.Valid()
    ensures ledger.alerts == old(ledger.alerts) + BuildAlerts(scan.id, raws, now)
    ensures cleanup.None? ==> var rows := BuildAlerts(scan.id, raws, now);
      && ledger.scans == old(ledger.scans)[scan.id := Finished(scan, Tally(rows), now)]
      && outcome == Succeeded(RunSummary(scan.id, "completed", |rows|, Tally(rows).high, Tally(rows).medium, Tally(rows).low))
    ensures cleanup.Some? ==> var rows := BuildAlerts(scan.id, raws, now);
      && ledger.scans == old(ledger.scans)[scan.id := Aborted(Tallied(scan, Tally(rows)), cleanup.value, now)]
      && outcome == RunFailed(cleanup.value)
  {
    var rows, counts := ProcessAlerts(scan.id, raws, now);
    ledger.AddAlerts(rows);
    var committed := Tallied(scan, counts);
    if cleanup.Some? {
      ledger.PutScan(Aborted(committed, cleanup.value, now));
      return RunFailed(cleanup.value);
    }
    var done := Finished(scan, counts, now);
    ledger.PutScan(done);
    TallyTotal(rows);
    outcome := Succeeded(RunSummary(scan.id, "completed", done.totalAlerts, done.highRiskCount, done.mediumRiskCount, done.lowRiskCount));
  }

  /** Writing a key twice leaves the second value. */
  lemma UpdateTwice(m: map<int, Scan>, k: int, first: Scan, second: Scan)
    ensures m[k := first][k := second] == m[k := second]
  {
  }

  /**
   * Runs scan `scanId` as task `taskId`. A missing scan changes nothing. Otherwise the
   * scan is first marked in progress; then either the scanner's alerts are stored, one
   * row each after the existing rows, with the counters of this batch, and the scan is
   * completed, or failed with the clean-up's message when the clean-up raised; or the
   * scanner raised and the scan is failed with its message, keeping the rows and
   * counters it had.
   */
  method RunScan(ledger: Ledger, scanId: int, taskId: string, scanner: (ScanType, string) -> ScannerOutcome,
                 cleanup: Option<string>, now: int)
    returns (outcome: RunOutcome)
    requires ledger.Valid()
    modifies ledger`scans, ledger`alerts
    ensures ledger.Valid()
    ensures ledger.nextId == old(ledger.nextId) && ledger.runQueue == old(ledger.runQueue)
    ensures ledger.cancelQueue == old(ledger.cancelQueue) && ledger.revoked == old(ledger.revoked)
    ensures scanId !in old(ledger.scans) ==> outcome == ScanMissing && ledger.scans == old(ledger.scans) && ledger.alerts == old(ledger.alerts)
    ensures scanId in old(ledger.scans) && scanner(old(ledger.scans)[scanId].kind, old(ledger.scans)[scanId].targetUrl).Alerts? ==>
      var s := old(ledger.scans)[scanId];
      var rows := BuildAlerts(scanId, scanner(s.kind, s.targetUrl).raws, now);
      && ledger.alerts == old(ledger.alerts) + rows
      && (cleanup.None? ==>
            && ledger.scans == old(ledger.scans)[scanId := Finished(Started(s, taskId, now), Tally(rows), now)]
            && outcome == Succeeded(RunSummary(scanId, "completed", |rows|, Tally(rows).high, Tally(rows).medium, Tally(rows).low)))
      && (cleanup.Some? ==>
            && ledger.scans == old(ledger.scans)[scanId := Aborted(Tallied(Started(s, taskId, now), Tally(rows)), cleanup.value, now)]
            && outcome == RunFailed(cleanup.value))
    ensures scanId in old(ledger.scans) && scanner(old(ledger.scans)[scanId].kind, old(ledger.scans)[scanId].targetUrl).Raised? ==>
      var s := old(ledger.scans)[scanId];
      var msg := scanner(s.kind, s.targetUrl).message;
      && ledger.alerts == old(ledger.alerts)
      && ledger.scans == old(ledger.scans)[scanId := Aborted(Started(s, taskId, now), msg, now)]
      && outcome == RunFailed(msg)
  {
    if scanId !in ledger.scans {
      return ScanMissing;
    }
    var stored := ledger.scans[scanId];
    var scan := Started(stored, taskId, now);
    ledger.PutScan(scan);
    match scanner(stored.kind, stored.targetUrl) {
      case Alerts(raws) =>
        var counts := Tally(BuildAlerts(scanId, raws, now));
        UpdateTwice(old(ledger.scans), scanId, scan, Finished(scan, counts, now));
        if cleanup.Some? {
          UpdateTwice(old(ledger.scans), scanId, scan, Aborted(Tallied(scan, counts), cleanup.value, now));
        }
        outcome := CompleteRun(ledger, scan, raws, cleanup, now);
      case Raised(msg) =>
        UpdateTwice(old(ledger.scans), scanId, scan, Aborted(scan, msg, now));
        ledger.PutScan(Aborted(scan, msg, now));
        outcome := RunFailed(msg);
    }
  }

  /**
   * Cancels scan `scanId`. A missing scan changes nothing; a scan that is neither
   * pending nor running is reported not cancellable and left as it is; otherwise its
   * task, when it has a non-empty id, is revoked and the scan is cancelled.
   */
  method CancelScan(ledger: Ledger, scanId: int, now: int) returns (outcome: CancelOutcome)
    requires ledger.Valid()
    modifies ledger`scans, ledger`revoked
    ensures ledger.Valid()
    ensures ledger.alerts == old(ledger.alerts) && ledger.nextId == old(ledger.nextId)
    ensures ledger.runQueue == old(ledger.runQueue) && ledger.cancelQueue == old(ledger.cancelQueue)
    ensures scanId !in old(ledger.scans) ==> outcome == CancelMissing && ledger.scans == old(ledger.scans) && ledger.revoked == old(ledger.revoked)
    ensures scanId in old(ledger.scans) && !IsActive(old(ledger.scans[scanId].status)) ==>
      outcome == NotCancellable && ledger.scans == old(ledger.scans) && ledger.revoked == old(ledger.revoked)
    ensures scanId in old(ledger.scans) && IsActive(old(ledger.scans[scanId].status)) ==>
      var s := old(ledger.scans[scanId]);
      && outcome == WasCancelled
      && ledger.scans == old(ledger.scans)[scanId := CancelledRow(s, now)]
      && ledger.revoked == old(ledger.revoked) + (if s.celeryTaskId.Some? && s.celeryTaskId.value != "" then [s.celeryTaskId.value] else [])
  {
    if scanId !in ledger.scans {
      return CancelMissing;
    }
    var scan := ledger.scans[scanId];
    if !IsActive(scan.status) {
      return NotCancellable;
    }
    if scan.celeryTaskId.Some? && scan.celeryTaskId.value != "" {
      ledger.revoked := ledger.revoked + [scan.celeryTaskId.value];
    }
    ledger.PutScan(CancelledRow(scan, now));
    outcome := WasCancelled;
  }
}
