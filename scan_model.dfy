/**
 * The scan ledger's records: the `scans` and `scan_alerts` tables with their
 * enumerations and column defaults (backend/app/models/scan.py).
 * Timestamps are integers (seconds); the clock is a parameter of every operation.
 */
module ScanModel {
  import opened Wrappers

  datatype ScanStatus = Pending | InProgress | Completed | Failed | Cancelled

  datatype ScanType = Basic | Full

  datatype RiskLevel = High | Medium | Low | Informational

  /** The value a status is stored under. */
  function StatusValue(s: ScanStatus): string {
    match s
    case Pending => "pending"
    case InProgress => "in_progress"
    case Completed => "completed"
    case Failed => "failed"
    case Cancelled => "cancelled"
  }

  /** Reads a stored status value back; any string that is not one of the five is refused. */
  function ParseStatus(v: string): (r: Option<ScanStatus>)
    ensures r.Some? <==> v in {"pending", "in_progress", "completed", "failed", "cancelled"}
    ensures r.Some? ==> StatusValue(r.value) == v
  {
    if v == "pending" then Some(Pending)
    else if v == "in_progress" then Some(InProgress)
    else if v == "completed" then Some(Completed)
    else if v == "failed" then Some(Failed)
    else if v == "cancelled" then Some(Cancelled)
    else None
  }

  lemma StatusRoundTrip(s: ScanStatus)
    ensures ParseStatus(StatusValue(s)) == Some(s)
  {
  }

  function TypeValue(t: ScanType): string {
    match t
    case Basic => "basic"
    case Full => "full"
  }

  /** Reads a scan type value: exactly "basic" and "full" are kinds of scan. */
  function ParseScanType(v: string): (r: Option<ScanType>)
    ensures r.Some? <==> v == "basic" || v == "full"
    ensures r.Some? ==> TypeValue(r.value) == v
  {
    if v == "basic" then Some(Basic) else if v == "full" then Some(Full) else None
  }

  lemma ScanTypeRoundTrip(t: ScanType)
    ensures ParseScanType(TypeValue(t)) == Some(t)
  {
  }

  function RiskValue(l: RiskLevel): string {
    match l
    case High => "high"
    case Medium => "medium"
    case Low => "low"
    case Informational => "informational"
  }

  function ParseRisk(v: string): (r: Option<RiskLevel>)
    ensures r.Some? <==> v in {"high", "medium", "low", "informational"}
    ensures r.Some? ==> RiskValue(r.value) == v
  {
    if v == "high" then Some(High)
    else if v == "medium" then Some(Medium)
    else if v == "low" then Some(Low)
    else if v == "informational" then Some(Informational)
    else None
  }

  lemma RiskRoundTrip(l: RiskLevel)
    ensures ParseRisk(RiskValue(l)) == Some(l)
  {
  }

  /** A pending or running scan: the ones the per-user quota counts. */
  predicate IsActive(s: ScanStatus) {
    s == Pending || s == InProgress
  }

  /** Opaque engine configuration passed through untouched. */
  type ScanConfig = map<string, string>

  /** One row of the `scans` table. */
  datatype Scan = Scan(
    id: int,
    userId: int,
    targetUrl: string,
    kind: ScanType,
    status: ScanStatus,
    celeryTaskId: Option<string>,
    config: Option<ScanConfig>,
    progress: int,
    currentStep: Option<string>,
    totalAlerts: nat,
    highRiskCount: nat,
    mediumRiskCount: nat,
    lowRiskCount: nat,
    infoCount: nat,
    errorMessage: Option<string>,
    createdAt: int,
    startedAt: Option<int>,
    completedAt: Option<int>,
    updatedAt: int
  )

  /** The four risk counters add up to the alert total. */
  predicate CountersConsistent(s: Scan) {
    s.totalAlerts == s.highRiskCount + s.mediumRiskCount + s.lowRiskCount + s.infoCount
  }

  /** A scan row as the column defaults create it: pending, no progress, no results, not started. */
  function NewScan(id: int, userId: int, targetUrl: string, kind: ScanType, config: Option<ScanConfig>, now: int): (s: Scan)
    ensures s.id == id && s.userId == userId && s.targetUrl == targetUrl && s.kind == kind && s.config == config
    ensures s.status == Pending && s.progress == 0 && s.currentStep.None? && s.celeryTaskId.None?
    ensures s.totalAlerts == 0 && CountersConsistent(s) && s.errorMessage.None?
    ensures s.startedAt.None? && s.completedAt.None? && s.createdAt == now && s.updatedAt == now
  {
    Scan(id, userId, targetUrl, kind, Pending, None, config, 0, None, 0, 0, 0, 0, 0, None, now, None, None, now)
  }

  /** One row of the `scan_alerts` table; it belongs to the scan `scanId`. */
  datatype ScanAlert = ScanAlert(
    scanId: int,
    alertName: string,
    riskLevel: RiskLevel,
    confidence: string,
    description: Option<string>,
    solution: Option<string>,
    reference: Option<string>,
    cweId: Option<string>,
    wascId: Option<string>,
    url: string,
    httpMethod: Option<string>,
    param: Option<string>,
    attack: Option<string>,
    evidence: Option<string>,
    otherInfo: Option<string>,
    createdAt: int
  )

  /** The alert rows that do not belong to scan `id`, in table order: what the cascade leaves. */
  function WithoutScan(rows: seq<ScanAlert>, id: int): (r: seq<ScanAlert>)
    ensures forall a :: a in r <==> a in rows && a.scanId != id
    ensures |r| <= |rows|
  {
    if rows == [] then []
    else if rows[0].scanId == id then WithoutScan(rows[1..], id)
    else [rows[0]] + WithoutScan(rows[1..], id)
  }
}
