/**
 * The periodic domain maintenance (backend/app/tasks/domain_verification_scheduled.py):
 * over a snapshot of all rows, an unverified row older than 24 hours is deleted, and
 * a verified row is re-checked with the verification task and deleted when that
 * fails. The resolver is a function from a domain to its answer.
 */
module DomainMaintenance {
  import opened TxtToken
  import opened SiteTable
  import opened DomainVerification

  /** `timedelta(hours=24)`, in seconds. */
  const StaleAfter: int := 86400

  /** Whether a row outlives a pass at time `now`. */
  predicate Survives(s: Site, now: int, prefix: string, resolve: string -> TxtAnswer) {
    if !s.verified then now - s.createdAt <= StaleAfter
    else resolve(s.domain).Records? && TokenFound(resolve(s.domain).records, prefix, s.token)
  }

  function Survivor(now: int, prefix: string, resolve: string -> TxtAnswer): Site -> bool {
    (s: Site) => Survives(s, now, prefix, resolve)
  }

  /** One step of the pass: the row at the head of the unvisited part stays or goes as `keep` says. */
  lemma Advance(all: seq<Site>, k: nat, keep: Site -> bool, rows: seq<Site>)
    requires k < |all|
    requires keep(all[k]) ==> rows == Filter(all[..k], keep) + [all[k]] + all[k + 1..]
    requires !keep(all[k]) ==> rows == Filter(all[..k], keep) + all[k + 1..]
    ensures rows == Filter(all[..k + 1], keep) + all[k + 1..]
  {
    assert all[..k + 1][..k] == all[..k];
  }

  /** The unvisited part of the snapshot begins with the row at `k`. */
  lemma SplitAt(done: seq<Site>, all: seq<Site>, k: nat)
    requires k < |all|
    ensures done + all[k..] == done + [all[k]] + all[k + 1..]
  {
    assert all[k..] == [all[k]] + all[k + 1..];
  }

  /** Deleting a row by id in a consistent table removes just that row. */
  lemma DeleteStep(done: seq<Site>, site: Site, rest: seq<Site>)
    requires Consistent(done + [site] + rest)
    ensures Filter(done + [site] + rest, NotId(site.id)) == done + rest
  {
    var rows := done + [site] + rest;
    assert rows[|done|] == site;
    DeleteIdRemovesOne(rows, |done|);
    assert rows[..|done|] == done && rows[|done| + 1..] == rest;
  }

  /**
   * Re-checking the verified row `site` in a consistent table: the verification task succeeds
   * exactly when the row survives, and then changes nothing; when it fails, deleting
   * the row leaves the other rows as they were.
   */
  lemma RecheckStep(done: seq<Site>, site: Site, rest: seq<Site>, now: int, prefix: string, resolve: string -> TxtAnswer)
    requires Consistent(done + [site] + rest) && site.verified
    ensures var res := Verified(done + [site] + rest, site.domain, site.userId, prefix, resolve(site.domain));
      && res.ok == Survives(site, now, prefix, resolve)
      && (res.ok ==> res.rows == done + [site] + rest)
      && (!res.ok ==> Consistent(res.rows) && Filter(res.rows, NotId(site.id)) == done + rest)
  {
    var rows := done + [site] + rest;
    var answer := resolve(site.domain);
    assert rows[|done|] == site;
    RecheckOfVerifiedRow(rows, |done|, prefix, answer);
    VerifiedConsistent(rows, site.domain, site.userId, prefix, answer);
    var res := Verified(rows, site.domain, site.userId, prefix, answer);
    if !res.ok {
      var site' := if answer.Records? then site.(verified := false) else site;
      assert res.rows == done + [site'] + rest;
      DeleteStep(done, site', rest);
    }
  }

  /**
   * `scheduled_domain_maintenance`: the rows left are those of the snapshot that
   * survive, in their order.
   */
  method ScheduledMaintenance(table: SiteTable, now: int, prefix: string, resolve: string -> TxtAnswer)
    requires table.Valid()
    modifies table`rows
    ensures table.Valid()
    ensures table.rows == Filter(old(table.rows), Survivor(now, prefix, resolve))
  {
    var all := table.rows;
    var keep := Survivor(now, prefix, resolve);
    var k := 0;
    while k < |all|
      invariant 0 <= k <= |all|
      invariant table.Valid()
      invariant table.rows == Filter(all[..k], keep) + all[k..]
    {
      var site := all[k];
      ghost var done := Filter(all[..k], keep);
      ghost var rest := all[k + 1..];
      SplitAt(done, all, k);
      assert keep(site) == Survives(site, now, prefix, resolve);
      if !site.verified {
        if now - site.createdAt > StaleAfter {
          DeleteStep(done, site, rest);
          table.Delete(site.id);
        }
      } else {
        RecheckStep(done, site, rest, now, prefix, resolve);
        var ok := VerifyDomainTask(table, site.domain, site.userId, prefix, resolve(site.domain));
        if !ok {
          table.Delete(site.id);
        }
      }
      Advance(all, k, keep, table.rows);
      k := k + 1;
    }
    assert all[..k] == all;
  }

  /** Filtering twice with the same test is filtering once. */
  lemma {:induction false} FilterIdempotent(rows: seq<Site>, keep: Site -> bool)
    ensures Filter(Filter(rows, keep), keep) == Filter(rows, keep)
  {
    FilterMembers(rows, keep);
    FilterKeepsAll(Filter(rows, keep), keep);
  }

  /**
   * After a pass no unverified row is older than 24 hours and every verified row's
   * token is still published; a second pass at the same time, with the same records,
   * deletes nothing.
   */
  lemma MaintenanceResult(rows: seq<Site>, now: int, prefix: string, resolve: string -> TxtAnswer)
    ensures var r := Filter(rows, Survivor(now, prefix, resolve));
      forall s :: s in r && !s.verified ==> now - s.createdAt <= StaleAfter
    ensures var r := Filter(rows, Survivor(now, prefix, resolve));
      forall s :: s in r && s.verified ==> resolve(s.domain).Records? && TokenFound(resolve(s.domain).records, prefix, s.token)
    ensures var r := Filter(rows, Survivor(now, prefix, resolve));
      Filter(r, Survivor(now, prefix, resolve)) == r
  {
    FilterMembers(rows, Survivor(now, prefix, resolve));
    FilterIdempotent(rows, Survivor(now, prefix, resolve));
  }

  /** Recent unverified rows, and verified rows whose token is still published, are never deleted. */
  lemma MaintenanceKeeps(rows: seq<Site>, now: int, prefix: string, resolve: string -> TxtAnswer, s: Site)
    requires s in rows
    requires !s.verified ==> now - s.createdAt <= StaleAfter
    requires s.verified ==> resolve(s.domain).Records? && TokenFound(resolve(s.domain).records, prefix, s.token)
    ensures s in Filter(rows, Survivor(now, prefix, resolve))
  {
    FilterMembers(rows, Survivor(now, prefix, resolve));
  }
}
