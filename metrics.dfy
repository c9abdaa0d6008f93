/**
 * The in-memory metrics collector (backend/app/services/metrics.py): a table of the
 * scans in progress and a history of completed scans holding at most the last 1000,
 * with the integer parts of its summary. Wall-clock times are given as `now`.
 */
module Metrics {
  import opened Wrappers

  /** `_max_completed_history`. */
  const MaxCompletedHistory: nat := 1000

  /** The record of one scan's run. */
  datatype ScanMetrics = ScanMetrics(
    scanId: int,
    startedAt: int,
    completedAt: Option<int>,
    totalAlerts: int,
    highRiskCount: int,
    mediumRiskCount: int,
    lowRiskCount: int,
    status: string,
    errorMessage: Option<string>)

  /** A fresh record: started now, no counts, "in_progress". */
  function StartedMetrics(scanId: int, now: int): (m: ScanMetrics)
    ensures m.scanId == scanId && m.startedAt == now && m.completedAt == None
    ensures m.status == "in_progress" && m.totalAlerts == 0 && m.errorMessage == None
  {
    ScanMetrics(scanId, now, None, 0, 0, 0, 0, "in_progress", None)
  }

  /** A record completed now with the reported counts, status and error. */
  function CompletedMetrics(m: ScanMetrics, now: int, totalAlerts: int, high: int, medium: int, low: int,
                            status: string, errorMessage: Option<string>): (r: ScanMetrics)
    ensures r.scanId == m.scanId && r.startedAt == m.startedAt && r.completedAt == Some(now)
    ensures r.totalAlerts == totalAlerts && r.highRiskCount == high && r.mediumRiskCount == medium
    ensures r.lowRiskCount == low && r.status == status && r.errorMessage == errorMessage
  {
    m.(completedAt := Some(now), totalAlerts := totalAlerts, highRiskCount := high, mediumRiskCount := medium,
       lowRiskCount := low, status := status, errorMessage := errorMessage)
  }

  /** Appending one record and dropping the oldest when the history has grown past its bound. */
  function Appended(history: seq<ScanMetrics>, m: ScanMetrics): (r: seq<ScanMetrics>)
    requires |history| <= MaxCompletedHistory
    ensures |r| <= MaxCompletedHistory && r != [] && r[|r| - 1] == m
    ensures |history| < MaxCompletedHistory ==> r == history + [m]
    ensures |history| == MaxCompletedHistory ==> r == history[1..] + [m]
  {
    var h := history + [m];
    if |h| > MaxCompletedHistory then h[1..] else h
  }

  /** The number of records with status `status`. */
  function CountStatus(history: seq<ScanMetrics>, status: string): nat {
    if history == [] then 0
    else CountStatus(history[..|history| - 1], status) + (if history[|history| - 1].status == status then 1 else 0)
  }

  /** The successful and failed records together are no more than the whole history. */
  lemma {:induction false} SuccessAndFailureBounded(history: seq<ScanMetrics>)
    ensures CountStatus(history, "completed") + CountStatus(history, "failed") <= |history|
  {
    if history != [] {
      SuccessAndFailureBounded(history[..|history| - 1]);
    }
  }

  /** The history's records with status `status` are exactly its records counted under it. */
  lemma {:induction false} CountStatusZero(history: seq<ScanMetrics>, status: string)
    ensures CountStatus(history, status) == 0 <==> forall m :: m in history ==> m.status != status
  {
    if history != [] {
      var prefix := history[..|history| - 1];
      CountStatusZero(prefix, status);
      assert history == prefix + [history[|history| - 1]];
    }
  }

  /** The counters a record carries. */
  datatype Counter = AlertsCounter | HighCounter | MediumCounter | LowCounter

  /** The value of counter `c` in record `m`. */
  function CounterOf(m: ScanMetrics, c: Counter): int {
    match c
    case AlertsCounter => m.totalAlerts
    case HighCounter => m.highRiskCount
    case MediumCounter => m.mediumRiskCount
    case LowCounter => m.lowRiskCount
  }

  /** The sum of counter `c` over the history. */
  function SumOf(history: seq<ScanMetrics>, c: Counter): int {
    if history == [] then 0 else SumOf(history[..|history| - 1], c) + CounterOf(history[|history| - 1], c)
  }

  /** The integer parts of `get_metrics_summary`. */
  datatype Summary = Summary(
    activeScans: nat,
    queueSize: nat,
    completedScansTotal: nat,
    successfulScansTotal: nat,
    failedScansTotal: nat,
    totalAlerts: int,
    totalHighRiskAlerts: int,
    totalMediumRiskAlerts: int,
    totalLowRiskAlerts: int)

  class MetricsCollector {
    /** `_scan_metrics`: the scans in progress, by id. */
    var active: map<int, ScanMetrics>
    /** `_completed_scans`: the completed records, oldest first. */
    var completed: seq<ScanMetrics>

    ghost predicate Valid()
      reads this
    {
      && |completed| <= MaxCompletedHistory
      && forall id :: id in active ==> active[id].scanId == id
    }

    constructor()
      ensures Valid() && active == map[] && completed == []
    {
      active := map[];
      completed := [];
    }

    /** `start_scan`: records (or restarts) scan `scanId` as in progress. */
    method StartScan(scanId: int, now: int)
      requires Valid()
      modifies this
      ensures Valid()
      ensures active == old(active)[scanId := StartedMetrics(scanId, now)]
      ensures completed == old(completed)
    {
      active := active[scanId := StartedMetrics(scanId, now)];
    }

    /**
     * `complete_scan`: an unknown id changes nothing; otherwise the scan's record is
     * completed, appended to the history (dropping the oldest past the bound) and the
     * scan is no longer active.
     */
    method CompleteScan(scanId: int, now: int, totalAlerts: int, high: int, medium: int, low: int,
                        status: string, errorMessage: Option<string>)
      requires Valid()
      modifies this
      ensures Valid()
      ensures scanId !in old(active) ==> active == old(active) && completed == old(completed)
      ensures scanId in old(active) ==>
        && active == old(active) - {scanId}
        && completed == Appended(old(completed),
             CompletedMetrics(old(active)[scanId], now, totalAlerts, high, medium, low, status, errorMessage))
    {
      if scanId !in active {
        return;
      }
      var m := CompletedMetrics(active[scanId], now, totalAlerts, high, medium, low, status, errorMessage);
      completed := completed + [m];
      if |completed| > MaxCompletedHistory {
        completed := completed[1..];
      }
      active := active - {scanId};
    }

    /** `get_active_scans`: a copy of the table of scans in progress. */
    method GetActiveScans() returns (r: map<int, ScanMetrics>)
      requires Valid()
      ensures r == active
      ensures forall id :: id in r ==> r[id].scanId == id
    {
      r := active;
    }

    /** The integer parts of `get_metrics_summary`. */
    function GetSummary(): (r: Summary)
      reads this
      requires Valid()
      ensures r.activeScans == r.queueSize == |active|
      ensures r.completedScansTotal == |completed| <= MaxCompletedHistory
      ensures r.successfulScansTotal == CountStatus(completed, "completed")
      ensures r.failedScansTotal == CountStatus(completed, "failed")
      ensures r.successfulScansTotal + r.failedScansTotal <= r.completedScansTotal
      ensures r.totalAlerts == SumOf(completed, AlertsCounter) && r.totalHighRiskAlerts == SumOf(completed, HighCounter)
      ensures r.totalMediumRiskAlerts == SumOf(completed, MediumCounter) && r.totalLowRiskAlerts == SumOf(completed, LowCounter)
    {
      SuccessAndFailureBounded(completed);
      Summary(|active|, |active|, |completed|, CountStatus(completed, "completed"), CountStatus(completed, "failed"),
              SumOf(completed, AlertsCounter), SumOf(completed, HighCounter),
              SumOf(completed, MediumCounter), SumOf(completed, LowCounter))
    }
  }

  /** Completing a scan while the history has room adds one to its total and to its count for the status. */
  lemma AppendedCounts(history: seq<ScanMetrics>, m: ScanMetrics, status: string)
    requires |history| < MaxCompletedHistory
    ensures |Appended(history, m)| == |history| + 1
    ensures CountStatus(Appended(history, m), status) == CountStatus(history, status) + (if m.status == status then 1 else 0)
  {
    var r := Appended(history, m);
    assert r[..|r| - 1] == history;
  }

  /** Once the history is full, completing a scan drops exactly the oldest record. */
  lemma AppendedEvictsOldest(history: seq<ScanMetrics>, m: ScanMetrics)
    requires |history| == MaxCompletedHistory
    ensures |Appended(history, m)| == MaxCompletedHistory
    ensures forall i :: 0 <= i < MaxCompletedHistory - 1 ==> Appended(history, m)[i] == history[i + 1]
  {
  }
}
