/**
 * Result ingestion (`_process_alerts` in backend/app/tasks/scan_tasks.py):
 * raw engine alerts become one alert row each, and the risk counters are tallied.
 * A raw alert is the engine's string-to-string mapping.
 */
module ScanIngest {
  import opened Wrappers
  import opened ScanModel

  type RawAlert = map<string, string>

  /** The risk table: numeric codes and capitalised labels, matched case-sensitively; anything else is informational. */
  function RiskFromRaw(v: string): (r: RiskLevel)
    ensures r == High <==> v == "3" || v == "High"
    ensures r == Medium <==> v == "2" || v == "Medium"
    ensures r == Low <==> v == "1" || v == "Low"
    ensures r == Informational <==> v !in {"3", "High", "2", "Medium", "1", "Low"}
  {
    if v == "3" || v == "High" then High
    else if v == "2" || v == "Medium" then Medium
    else if v == "1" || v == "Low" then Low
    else Informational
  }

  /** `alert.get(key, default)`. */
  function GetOr(a: RawAlert, key: string, default: string): string {
    if key in a then a[key] else default
  }

  /** `alert.get(key)`: `None` when absent. */
  function Get(a: RawAlert, key: string): Option<string> {
    if key in a then Some(a[key]) else None
  }

  /** `str(alert.get(key)) if alert.get(key) else None`: absent and empty both give `None`. */
  function GetTruthy(a: RawAlert, key: string): (r: Option<string>)
    ensures r.Some? <==> key in a && a[key] != ""
    ensures r.Some? ==> r.value == a[key]
  {
    if key in a && a[key] != "" then Some(a[key]) else None
  }

  /** The risk of a raw alert; a missing risk reads as "0". */
  function RiskOf(a: RawAlert): (r: RiskLevel)
    ensures "risk" !in a ==> r == Informational
  {
    RiskFromRaw(GetOr(a, "risk", "0"))
  }

  /** The alert row built from one raw alert. */
  function BuildAlert(scanId: int, a: RawAlert, now: int): (r: ScanAlert)
    ensures r.scanId == scanId && r.riskLevel == RiskOf(a) && r.createdAt == now
    ensures r.alertName == GetOr(a, "alert", "Unknown Alert")
    ensures r.confidence == GetOr(a, "confidence", "Unknown") && r.url == GetOr(a, "url", "")
    ensures r.cweId == GetTruthy(a, "cweid") && r.wascId == GetTruthy(a, "wascid")
  {
    ScanAlert(
      scanId,
      GetOr(a, "alert", "Unknown Alert"),
      RiskOf(a),
      GetOr(a, "confidence", "Unknown"),
      Get(a, "description"),
      Get(a, "solution"),
      Get(a, "reference"),
      GetTruthy(a, "cweid"),
      GetTruthy(a, "wascid"),
      GetOr(a, "url", ""),
      Get(a, "method"),
      Get(a, "param"),
      Get(a, "attack"),
      Get(a, "evidence"),
      Get(a, "other"),
      now)
  }

  /** The rows for a whole batch, one per raw alert in input order. */
  function BuildAlerts(scanId: int, raws: seq<RawAlert>, now: int): (rows: seq<ScanAlert>)
    ensures |rows| == |raws|
    ensures forall i :: 0 <= i < |raws| ==> rows[i] == BuildAlert(scanId, raws[i], now)
    ensures forall a :: a in rows ==> a.scanId == scanId
  {
    if raws == [] then [] else BuildAlerts(scanId, raws[..|raws| - 1], now) + [BuildAlert(scanId, raws[|raws| - 1], now)]
  }

  datatype RiskCounts = RiskCounts(high: nat, medium: nat, low: nat, informational: nat) {
    function Total(): nat {
      high + medium + low + informational
    }

    function Of(l: RiskLevel): nat {
      match l
      case High => high
      case Medium => medium
      case Low => low
      case Informational => informational
    }

    /** One more alert of level `l`. */
    function Bump(l: RiskLevel): (r: RiskCounts)
      ensures r.Of(l) == Of(l) + 1
      ensures forall m :: m != l ==> r.Of(m) == Of(m)
      ensures r.Total() == Total() + 1
    {
      match l
      case High => this.(high := high + 1)
      case Medium => this.(medium := medium + 1)
      case Low => this.(low := low + 1)
      case Informational => this.(informational := informational + 1)
    }
  }

  /** The number of rows at risk level `l`. */
  function CountAt(rows: seq<ScanAlert>, l: RiskLevel): nat {
    if rows == [] then 0
    else CountAt(rows[..|rows| - 1], l) + (if rows[|rows| - 1].riskLevel == l then 1 else 0)
  }

  /** The four counters of a batch of rows. */
  function Tally(rows: seq<ScanAlert>): RiskCounts {
    RiskCounts(CountAt(rows, High), CountAt(rows, Medium), CountAt(rows, Low), CountAt(rows, Informational))
  }

  /** Every row is counted under exactly one level, so the counters add up to the number of rows. */
  lemma {:induction false} TallyTotal(rows: seq<ScanAlert>)
    ensures Tally(rows).Total() == |rows|
  {
    if rows != [] {
      TallyTotal(rows[..|rows| - 1]);
    }
  }

  lemma TallyAppend(rows: seq<ScanAlert>, a: ScanAlert)
    ensures Tally(rows + [a]) == Tally(rows).Bump(a.riskLevel)
  {
    assert (rows + [a])[..|rows|] == rows;
  }

  /** Builds the rows of a batch and counts them by risk level, as the ingestion loop does. */
  method ProcessAlerts(scanId: int, raws: seq<RawAlert>, now: int) returns (rows: seq<ScanAlert>, counts: RiskCounts)
    ensures rows == BuildAlerts(scanId, raws, now)
    ensures counts == Tally(rows)
    ensures counts.Total() == |raws|
  {
    rows := [];
    counts := RiskCounts(0, 0, 0, 0);
    var i := 0;
    while i < |raws|
      invariant 0 <= i <= |raws|
      invariant rows == BuildAlerts(scanId, raws[..i], now)
      invariant counts == Tally(rows)
    {
      var alert := BuildAlert(scanId, raws[i], now);
      assert raws[..i + 1][..i] == raws[..i];
      assert BuildAlerts(scanId, raws[..i + 1], now) == rows + [alert];
      TallyAppend(rows, alert);
      counts := counts.Bump(alert.riskLevel);
      rows := rows + [alert];
      i := i + 1;
    }
    assert raws[..i] == raws;
    TallyTotal(rows);
  }
}
