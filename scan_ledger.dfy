/**
 * The scan ledger and its caller-facing operations (backend/app/crud/scan.py):
 * admission under the per-user quota, ownership-checked lookup, filtered and paged
 * listing, partial update, deletion with its alert cascade, cancel requests and
 * per-user statistics. The `scans` table is a map from id to row; `scan_alerts`
 * is a sequence of rows in insertion order; the Celery queue is modelled by the
 * sequences of scan ids queued to run and to cancel and of revoked task ids.
 */
module ScanLedger {
  import opened Wrappers
  import opened ScanModel
  import opened ScanSchemas

  /** At most this many pending or running scans per user. */
  const MaxActiveScans: nat := 5

  /** What every stored row satisfies: a bounded progress, consistent counters, a web URL. */
  predicate WellFormed(s: Scan) {
    0 <= s.progress <= 100 && CountersConsistent(s) && HasWebScheme(s.targetUrl)
  }

  /** The rows a listing keeps: the user's, optionally of one status and one type. */
  predicate ListFilter(s: Scan, userId: int, status: Option<ScanStatus>, kind: Option<ScanType>) {
    s.userId == userId && (status.Some? ==> s.status == status.value) && (kind.Some? ==> s.kind == kind.value)
  }

  /** Ordered by creation time, newest first. */
  predicate NewestFirst(ss: seq<Scan>) {
    forall i, j :: 0 <= i < j < |ss| ==> ss[i].createdAt >= ss[j].createdAt
  }

  predicate DistinctIds(ss: seq<Scan>) {
    forall i, j :: 0 <= i < j < |ss| ==> ss[i].id != ss[j].id
  }

  /** Places `x` in a newest-first sequence, keeping the order and every element. */
  function InsertNewestFirst(ss: seq<Scan>, x: Scan): (r: seq<Scan>)
    requires NewestFirst(ss)
    ensures NewestFirst(r) && |r| == |ss| + 1
    ensures forall y :: y in r <==> y in ss || y == x
  {
    if ss == [] then [x]
    else if x.createdAt >= ss[0].createdAt then [x] + ss
    else
      var rest := InsertNewestFirst(ss[1..], x);
      assert forall y :: y in rest ==> y.createdAt <= ss[0].createdAt;
      assert forall k :: 0 <= k < |ss| - 1 ==> ss[1..][k] == ss[k + 1];
      [ss[0]] + rest
  }

  /** Inserting a row whose id is new keeps the ids distinct. */
  lemma {:induction false} InsertKeepsDistinct(ss: seq<Scan>, x: Scan)
    requires NewestFirst(ss) && DistinctIds(ss) && forall y :: y in ss ==> y.id != x.id
    ensures DistinctIds(InsertNewestFirst(ss, x))
  {
    if ss != [] && x.createdAt < ss[0].createdAt {
      assert forall k :: 0 <= k < |ss| - 1 ==> ss[1..][k] == ss[k + 1];
      InsertKeepsDistinct(ss[1..], x);
      var rest := InsertNewestFirst(ss[1..], x);
      assert forall y :: y in rest ==> y.id != ss[0].id;
    }
  }

  function Min(a: int, b: int): int {
    if a <= b then a else b
  }

  /** The listing's counters over a set of rows: alerts and the three reported risk levels, plus informational. */
  datatype Totals = Totals(alerts: nat, high: nat, medium: nat, low: nat, info: nat)

  /** Sums the result counters of the rows of `m` whose ids are in `ids` and below `hi` (SQL `sum` over those rows). */
  ghost function SumCounters(m: map<int, Scan>, ids: set<int>, hi: int): Totals
    requires ids <= m.Keys
    decreases hi
  {
    if hi <= 0 then Totals(0, 0, 0, 0, 0)
    else
      var t := SumCounters(m, ids, hi - 1);
      if hi - 1 !in ids then t
      else
        var s := m[hi - 1];
        Totals(t.alerts + s.totalAlerts, t.high + s.highRiskCount, t.medium + s.mediumRiskCount,
               t.low + s.lowRiskCount, t.info + s.infoCount)
  }

  /** Over rows whose counters are consistent, the summed counters are consistent too. */
  lemma {:induction false} SumCountersConsistent(m: map<int, Scan>, ids: set<int>, hi: int)
    requires ids <= m.Keys
    requires forall id :: id in ids ==> CountersConsistent(m[id])
    ensures var t := SumCounters(m, ids, hi); t.alerts == t.high + t.medium + t.low + t.info
    decreases hi
  {
    if hi > 0 {
      SumCountersConsistent(m, ids, hi - 1);
    }
  }

  /** The statistics returned for one user. */
  datatype ScanStats = ScanStats(
    totalScans: nat,
    pendingScans: nat,
    inProgressScans: nat,
    completedScans: nat,
    failedScans: nat,
    totalVulnerabilities: nat,
    highRiskVulnerabilities: nat,
    mediumRiskVulnerabilities: nat,
    lowRiskVulnerabilities: nat
  )

  /** The ids of the user's pending and running scans in `m`. */
  function ActiveIn(m: map<int, Scan>, userId: int): set<int> {
    set id | id in m && m[id].userId == userId && IsActive(m[id].status)
  }

  /** Storing a new active scan of the user adds its id to the user's active ids. */
  lemma ActiveAfterInsert(m: map<int, Scan>, userId: int, s: Scan)
    requires s.id !in m && s.userId == userId && IsActive(s.status)
    ensures ActiveIn(m[s.id := s], userId) == ActiveIn(m, userId) + {s.id}
  {
  }

  class Ledger {
    var scans: map<int, Scan>
    var alerts: seq<ScanAlert>
    var nextId: int
    var runQueue: seq<int>
    var cancelQueue: seq<int>
    var revoked: seq<string>

    /** Rows are keyed by their own id, below the next id; every alert row belongs to a stored scan. */
    ghost predicate Valid()
      reads this
    {
      && 0 < nextId
      && (forall id :: id in scans ==> scans[id].id == id && 0 < id < nextId && WellFormed(scans[id]))
      && (forall a :: a in alerts ==> a.scanId in scans)
    }

    constructor ()
      ensures Valid()
      ensures scans == map[] && alerts == [] && nextId == 1
      ensures runQueue == [] && cancelQueue == [] && revoked == []
    {
      scans := map[];
      alerts := [];
      nextId := 1;
      runQueue := [];
      cancelQueue := [];
      revoked := [];
    }

    /** The user's pending and running scans. */
    function ActiveIds(userId: int): set<int>
      reads this
    {
      ActiveIn(scans, userId)
    }

    function ActiveCount(userId: int): nat
      reads this
    {
      |ActiveIds(userId)|
    }

    /**
     * Admission: an unknown kind is refused with 400, a user at the quota with 429;
     * otherwise one pending scan owned by the user is inserted, its run is queued and
     * the queued task's id is stored on it (201).
     */
    method CreateScan(data: ScanCreate, userId: int, taskId: string, now: int) returns (code: int, scanId: Option<int>)
      requires Valid() && HasWebScheme(data.targetUrl)
      modifies this`scans, this`nextId, this`runQueue
      ensures Valid()
      ensures ParseScanType(data.scanType).None? ==> code == 400 && scanId.None? && unchanged(this)
      ensures ParseScanType(data.scanType).Some? && old(ActiveCount(userId)) >= MaxActiveScans ==>
        code == 429 && scanId.None? && unchanged(this)
      ensures ParseScanType(data.scanType).Some? && old(ActiveCount(userId)) < MaxActiveScans ==>
        && code == 201 && scanId == Some(old(nextId)) && nextId == old(nextId) + 1
        && scans == old(scans)[old(nextId) :=
             NewScan(old(nextId), userId, data.targetUrl, ParseScanType(data.scanType).value, data.scanConfig, now)
               .(celeryTaskId := Some(taskId))]
        && runQueue == old(runQueue) + [old(nextId)]
        && alerts == old(alerts) && cancelQueue == old(cancelQueue) && revoked == old(revoked)
        && ActiveCount(userId) == old(ActiveCount(userId)) + 1 <= MaxActiveScans
    {
      var kind := ParseScanType(data.scanType);
      if kind.None? {
        return 400, None;
      }
      var before := ActiveIds(userId);
      if |before| >= MaxActiveScans {
        return 429, None;
      }
      var id := nextId;
      var scan := NewScan(id, userId, data.targetUrl, kind.value, data.scanConfig, now);
      var queued := scan.(celeryTaskId := Some(taskId));
      ActiveAfterInsert(scans, userId, queued);
      assert scans[id := scan][id := queued] == scans[id := queued];
      scans := scans[id := scan];
      nextId := nextId + 1;
      runQueue := runQueue + [id];
      scans := scans[id := queued];
      code, scanId := 201, Some(id);
    }

    /** Writes back a stored row (the session's `add` and `commit` of a changed scan). */
    method PutScan(s: Scan)
      requires Valid() && s.id in scans && WellFormed(s)
      modifies this`scans
      ensures Valid() && scans == old(scans)[s.id := s] && alerts == old(alerts)
    {
      scans := scans[s.id := s];
    }

    /** Inserts a batch of alert rows after the existing ones; each must belong to a stored scan. */
    method AddAlerts(rows: seq<ScanAlert>)
      requires Valid() && forall a :: a in rows ==> a.scanId in scans
      modifies this`alerts
      ensures Valid() && alerts == old(alerts) + rows && scans == old(scans)
    {
      alerts := alerts + rows;
    }

    /** Lookup with the ownership check: found only when both the id and the owner match. */
    function FindScan(id: int, userId: int): (r: Option<Scan>)
      reads this
      ensures r.Some? <==> id in scans && scans[id].userId == userId
      ensures r.Some? ==> r.value == scans[id]
    {
      if id in scans && scans[id].userId == userId then Some(scans[id]) else None
    }

    ghost function MatchIds(userId: int, status: Option<ScanStatus>, kind: Option<ScanType>): set<int>
      reads this
    {
      set id | id in scans && ListFilter(scans[id], userId, status, kind)
    }

    /**
     * Listing: the user's rows passing the filters, newest first, paged from offset
     * (page - 1) * pageSize; `total` counts every match before paging. A negative
     * offset or limit is refused by the database, which the listing reports as ([], 0).
     * `ordered` is the full ordering the page is cut from.
     */
    method ListScans(userId: int, status: Option<ScanStatus>, kind: Option<ScanType>, page: int, pageSize: int)
      returns (items: seq<Scan>, total: nat, ghost ordered: seq<Scan>)
      requires Valid()
      ensures (page - 1) * pageSize < 0 || pageSize < 0 ==> items == [] && total == 0
      ensures (page - 1) * pageSize >= 0 && pageSize >= 0 ==>
        && total == |MatchIds(userId, status, kind)| == |ordered|
        && NewestFirst(ordered) && DistinctIds(ordered)
        && (forall s :: s in ordered <==> s.id in scans && scans[s.id] == s && ListFilter(s, userId, status, kind))
        && items == ordered[Min((page - 1) * pageSize, total)..Min((page - 1) * pageSize + pageSize, total)]
      ensures forall s :: s in items ==> s.id in scans && scans[s.id] == s && ListFilter(s, userId, status, kind)
      ensures NewestFirst(items) && |items| <= if pageSize < 0 then 0 else pageSize
    {
      var i := 1;
      var found: seq<Scan> := [];
      ghost var seen: set<int> := {};
      while i < nextId
        invariant 1 <= i <= nextId
        invariant NewestFirst(found) && DistinctIds(found) && |found| == |seen|
        invariant forall x :: x in seen <==> x in scans && x < i && ListFilter(scans[x], userId, status, kind)
        invariant forall s :: s in found <==> s.id in seen && scans[s.id] == s
      {
        if i in scans && ListFilter(scans[i], userId, status, kind) {
          InsertKeepsDistinct(found, scans[i]);
          found := InsertNewestFirst(found, scans[i]);
          seen := seen + {i};
        }
        i := i + 1;
      }
      assert forall x :: x in seen <==> x in MatchIds(userId, status, kind);
      assert seen == MatchIds(userId, status, kind);
      ordered := found;
      var offset := (page - 1) * pageSize;
      if offset < 0 || pageSize < 0 {
        return [], 0, ordered;
      }
      total := |found|;
      items := found[Min(offset, total)..Min(offset + pageSize, total)];
    }

    /**
     * Partial update of an owned scan: every field given is written, the others kept,
     * and the update time refreshed (200); a scan not found gives 404 and no change.
     * Status and progress are accepted whatever the scan's current status.
     */
    method UpdateScan(id: int, userId: int, upd: ScanUpdate, now: int) returns (code: int)
      requires Valid() && ValidUpdate(upd)
      modifies this
      ensures Valid()
      ensures old(FindScan(id, userId)).None? ==> code == 404 && unchanged(this)
      ensures old(FindScan(id, userId)).Some? ==>
        && code == 200
        && scans == old(scans)[id := ApplyUpdate(old(scans[id]), upd, now)]
        && alerts == old(alerts) && nextId == old(nextId)
        && runQueue == old(runQueue) && cancelQueue == old(cancelQueue) && revoked == old(revoked)
    {
      var found := FindScan(id, userId);
      if found.None? {
        return 404;
      }
      var scan := found.value;
      if upd.status.Some? {
        scan := scan.(status := upd.status.value);
      }
      if upd.progress.Some? {
        scan := scan.(progress := upd.progress.value);
      }
      if upd.currentStep.Some? {
        scan := scan.(currentStep := upd.currentStep);
      }
      if upd.errorMessage.Some? {
        scan := scan.(errorMessage := upd.errorMessage);
      }
      scan := scan.(updatedAt := now);
      scans := scans[id := scan];
      code := 200;
    }

    /**
     * Deletion of an owned scan: 404 when not found, 400 while it is running, otherwise
     * the row and, by the cascade, all of its alert rows are removed (200).
     */
    method DeleteScan(id: int, userId: int) returns (code: int)
      requires Valid()
      modifies this
      ensures Valid()
      ensures old(FindScan(id, userId)).None? ==> code == 404 && unchanged(this)
      ensures old(FindScan(id, userId)).Some? && old(scans[id].status) == InProgress ==> code == 400 && unchanged(this)
      ensures old(FindScan(id, userId)).Some? && old(scans[id].status) != InProgress ==>
        && code == 200
        && scans == old(scans) - {id}
        && alerts == WithoutScan(old(alerts), id)
        && (forall a :: a in alerts ==> a.scanId != id)
        && nextId == old(nextId) && runQueue == old(runQueue) && cancelQueue == old(cancelQueue) && revoked == old(revoked)
    {
      var found := FindScan(id, userId);
      if found.None? {
        return 404;
      }
      if found.value.status == InProgress {
        return 400;
      }
      scans := scans - {id};
      alerts := WithoutScan(alerts, id);
      code := 200;
    }

    /**
     * Cancel request for an owned scan: 404 when not found, 400 unless it is pending or
     * running; otherwise a cancel task is queued (200). The rows themselves are untouched.
     */
    method RequestCancel(id: int, userId: int) returns (code: int)
      requires Valid()
      modifies this`cancelQueue
      ensures Valid()
      ensures old(FindScan(id, userId)).None? ==> code == 404 && cancelQueue == old(cancelQueue)
      ensures old(FindScan(id, userId)).Some? && !IsActive(scans[id].status) ==> code == 400 && cancelQueue == old(cancelQueue)
      ensures old(FindScan(id, userId)).Some? && IsActive(scans[id].status) ==> code == 200 && cancelQueue == old(cancelQueue) + [id]
    {
      var found := FindScan(id, userId);
      if found.None? {
        return 404;
      }
      if !IsActive(found.value.status) {
        return 400;
      }
      cancelQueue := cancelQueue + [id];
      code := 200;
    }

    ghost function UserIds(userId: int): set<int>
      reads this
    {
      set id | id in scans && scans[id].userId == userId
    }

    ghost function StatusIds(userId: int, st: ScanStatus): set<int>
      reads this
    {
      set id | id in scans && scans[id].userId == userId && scans[id].status == st
    }

    /**
     * Per-user statistics: row counts by status, and result sums over the completed
     * scans. The four reported status counts leave out the cancelled scans, so they add
     * up to at most the total; on a valid ledger the high, medium and low sums never
     * exceed the alert total.
     */
    ghost function Stats(userId: int): (st: ScanStats)
      reads this
      ensures st.totalScans == |UserIds(userId)|
      ensures st.pendingScans + st.inProgressScans + st.completedScans + st.failedScans <= st.totalScans
      ensures Valid() ==>
        st.highRiskVulnerabilities + st.mediumRiskVulnerabilities + st.lowRiskVulnerabilities <= st.totalVulnerabilities
    {
      StatsPartition(userId);
      var sums := SumCounters(scans, StatusIds(userId, Completed), nextId);
      var st := ScanStats(|UserIds(userId)|, |StatusIds(userId, Pending)|, |StatusIds(userId, InProgress)|,
                          |StatusIds(userId, Completed)|, |StatusIds(userId, Failed)|,
                          sums.alerts, sums.high, sums.medium, sums.low);
      if Valid() then
        SumCountersConsistent(scans, StatusIds(userId, Completed), nextId);
        st
      else
        st
    }

    /** The five status counts partition the user's scans. */
    lemma StatsPartition(userId: int)
      ensures |StatusIds(userId, Pending)| + |StatusIds(userId, InProgress)| + |StatusIds(userId, Completed)|
              + |StatusIds(userId, Failed)| + |StatusIds(userId, Cancelled)| == |UserIds(userId)|
    {
      var p, i, c, f, x := StatusIds(userId, Pending), StatusIds(userId, InProgress), StatusIds(userId, Completed),
                           StatusIds(userId, Failed), StatusIds(userId, Cancelled);
      forall id | id in UserIds(userId)
        ensures id in p + i + c + f + x
      {
        match scans[id].status
        case Pending => assert id in p;
        case InProgress => assert id in i;
        case Completed => assert id in c;
        case Failed => assert id in f;
        case Cancelled => assert id in x;
      }
      assert UserIds(userId) == p + i + c + f + x;
      assert p !! i && (p + i) !! c && (p + i + c) !! f && (p + i + c + f) !! x;
    }

  }

  /** The row after a partial update: given fields written, the rest kept, the update time refreshed. */
  function ApplyUpdate(s: Scan, u: ScanUpdate, now: int): (r: Scan)
    ensures r.status == u.status.GetOr(s.status) && r.progress == u.progress.GetOr(s.progress)
    ensures r.currentStep == (if u.currentStep.Some? then u.currentStep else s.currentStep)
    ensures r.errorMessage == (if u.errorMessage.Some? then u.errorMessage else s.errorMessage)
    ensures r.updatedAt == now
    ensures r == s.(status := r.status, progress := r.progress, currentStep := r.currentStep,
                    errorMessage := r.errorMessage, updatedAt := now)
    ensures WellFormed(s) && ValidUpdate(u) ==> WellFormed(r)
  {
    s.(status := u.status.GetOr(s.status),
       progress := u.progress.GetOr(s.progress),
       currentStep := if u.currentStep.Some? then u.currentStep else s.currentStep,
       errorMessage := if u.errorMessage.Some? then u.errorMessage else s.errorMessage,
       updatedAt := now)
  }
}
